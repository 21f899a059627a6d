/** What a client makes of any block of lines: comments and unknown fields count for nothing, the last event and id
    win, the data lines are joined, and the end of the stream stands for a blank line. */
module SseFields {
  import opened Text
  import opened Sse

  /** What a line says: a comment, or a named value. */
  datatype Said = Comment | Said(name: string, value: string)

  /** A value may follow the colon at once or after one space, and a line without a colon is a name alone. */
  ghost predicate Says(line: string, said: Said) {
    match said
    case Comment => line != "" && line[0] == ':'
    case Said(name, value) =>
      && name != "" && ':' !in name
      && (line == name + (": " + value)
          || (line == name + (":" + value) && (value == "" || value[0] != ' '))
          || (line == name && value == ""))
  }

  /** Every line but the blank one says something. */
  lemma EveryLineSays(line: string) returns (said: Said)
    requires line != ""
    ensures Says(line, said)
  {
    var colon := IndexOf(line, ':');
    if colon == 0 {
      said := Comment;
    } else if colon == |line| {
      said := Said(line, "");
    } else {
      var after := line[colon + 1..];
      assert line == line[..colon] + ([':'] + after);
      if after != "" && after[0] == ' ' {
        assert [':'] + after == [':', ' '] + after[1..];
        said := Said(line[..colon], after[1..]);
      } else {
        said := Said(line[..colon], after);
      }
    }
  }

  /** The parser after a line that says this. */
  function Told(p: Parser, said: Said): Parser {
    match said
    case Comment => p
    case Said(name, value) =>
      if name == "data" then p.(dataLines := p.dataLines + [value])
      else if name == "id" then p.(eventID := value)
      else if name == "event" then p.(eventType := OrMessage(value))
      else p
  }

  function OrMessage(event: string): string {
    if event == "" then "message" else event
  }

  /** What the parser finds before the first colon and after it. */
  ghost predicate Found(line: string, name: string, value: string) {
    var colon := IndexOf(line, ':');
    line[..colon] == name && value == if colon < |line| then DropSpace(line[colon + 1..]) else ""
  }

  lemma FoundAfterColon(name: string, rest: string)
    requires ':' !in name
    ensures Found(name + [':'] + rest, name, DropSpace(rest))
  {
    var line := name + [':'] + rest;
    IndexOfAfter(name, ':', rest);
    assert line[..|name|] == name;
    assert line[|name| + 1..] == rest;
  }

  lemma FoundAlone(name: string)
    requires ':' !in name
    ensures Found(name, name, "")
  {
    assert name[..|name|] == name;
  }

  lemma SaidIsFound(line: string, name: string, value: string)
    requires Says(line, Said(name, value))
    ensures Found(line, name, value)
  {
    if line == name + (": " + value) {
      assert name + (": " + value) == name + [':'] + (" " + value);
      FoundAfterColon(name, " " + value);
      assert (" " + value)[1..] == value;
    } else if line == name + (":" + value) {
      assert name + (":" + value) == name + [':'] + value;
      FoundAfterColon(name, value);
    } else {
      FoundAlone(name);
    }
  }

  lemma SaidIsNoComment(line: string, name: string, value: string)
    requires Says(line, Said(name, value))
    ensures line != "" && line[0] != ':'
  {
    assert line[0] == name[0];
  }

  lemma ConsumeTells(p: Parser, line: string, said: Said)
    requires Says(line, said)
    ensures ConsumeLine(p, line) == Told(p, said)
  {
    if said.Said? {
      SaidIsFound(line, said.name, said.value);
      SaidIsNoComment(line, said.name, said.value);
    }
  }

  /** The values given to a name, in order. */
  function Named(saids: seq<Said>, name: string): seq<string> {
    if saids == [] then []
    else (if saids[0].Said? && saids[0].name == name then [saids[0].value] else []) + Named(saids[1..], name)
  }

  function LastOr(values: seq<string>, default: string): string {
    if values == [] then default else values[|values| - 1]
  }

  /** The parser after lines that say these. */
  function ToldAll(p: Parser, saids: seq<Said>): Parser
    decreases |saids|
  {
    if saids == [] then p else ToldAll(Told(p, saids[0]), saids[1..])
  }

  function EventOf(saids: seq<Said>, before: string): string {
    if Named(saids, "event") == [] then before else OrMessage(LastOr(Named(saids, "event"), ""))
  }

  lemma LastOrCons(saids: seq<Said>, name: string, default: string)
    requires saids != []
    ensures LastOr(Named(saids, name), default) ==
            LastOr(Named(saids[1..], name), if saids[0].Said? && saids[0].name == name then saids[0].value else default)
  {
  }

  lemma EventCons(saids: seq<Said>, before: string)
    requires saids != []
    ensures EventOf(saids, before) ==
            EventOf(saids[1..],
                    if saids[0].Said? && saids[0].name == "event" then OrMessage(saids[0].value) else before)
  {
  }

  lemma {:induction false} ToldAllSays(p: Parser, saids: seq<Said>)
    ensures ToldAll(p, saids) ==
            Parser(EventOf(saids, p.eventType), LastOr(Named(saids, "id"), p.eventID),
                   p.dataLines + Named(saids, "data"), p.frames)
    decreases |saids|
  {
    if saids == [] {
      assert p.dataLines + [] == p.dataLines;
    } else {
      ToldAllSays(Told(p, saids[0]), saids[1..]);
      LastOrCons(saids, "id", p.eventID);
      EventCons(saids, p.eventType);
      DataCons(p.dataLines, saids);
    }
  }

  lemma DataCons(lines: seq<string>, saids: seq<Said>)
    requires saids != []
    ensures lines + Named(saids, "data") ==
            (if saids[0].Said? && saids[0].name == "data" then lines + [saids[0].value] else lines)
            + Named(saids[1..], "data")
  {
  }

  function TextOf(lines: seq<string>): string {
    if lines == [] then "" else lines[0] + "\n" + TextOf(lines[1..])
  }

  /** These lines say these things; a carriage return before the line break does not belong to the line. */
  ghost predicate AllSay(lines: seq<string>, saids: seq<Said>) {
    && |lines| == |saids|
    && forall i | 0 <= i < |lines| :: '\n' !in lines[i] && Says(StripReturn(lines[i]), saids[i])
  }

  lemma {:induction false} LeadsTold(p: Parser, lines: seq<string>, saids: seq<Said>)
    requires AllSay(lines, saids)
    ensures Leads(p, TextOf(lines), ToldAll(p, saids))
    decreases |lines|
  {
    if lines == [] {
      LeadsNowhere(p);
    } else {
      LeadsLine(p, lines[0]);
      ConsumeTells(p, StripReturn(lines[0]), saids[0]);
      LeadsTold(Told(p, saids[0]), lines[1..], saids[1..]);
      Compose(p, lines[0] + "\n", Told(p, saids[0]), TextOf(lines[1..]), ToldAll(p, saids));
    }
  }

  /** The frame of a block: the last event and the last id it names, and its data lines joined. A block with none of
      them has no frame. */
  function BlockFrame(saids: seq<Said>): seq<Received> {
    var event, id, data := EventOf(saids, "message"), LastOr(Named(saids, "id"), ""), Named(saids, "data");
    if data == [] && id == "" && event == "message" then [] else [Received(event, id, Decode(Join(data, "\n")))]
  }

  lemma EmitsBlock(frames: seq<Received>, saids: seq<Said>)
    ensures Emit(ToldAll(Ready(frames), saids)) == Ready(frames + BlockFrame(saids))
  {
    ToldAllSays(Ready(frames), saids);
    assert [] + Named(saids, "data") == Named(saids, "data");
    assert frames + [] == frames;
  }

  /** Any lines up to a blank one, comments and unknown fields among them, give the frame of their block, whatever
      came before. */
  lemma BlockIsOneFrame(frames: seq<Received>, lines: seq<string>, saids: seq<Said>)
    requires AllSay(lines, saids)
    ensures Leads(Ready(frames), TextOf(lines) + "\n", Ready(frames + BlockFrame(saids)))
  {
    var p := ToldAll(Ready(frames), saids);
    LeadsTold(Ready(frames), lines, saids);
    EmitsBlock(frames, saids);
    LeadsLine(p, "");
    assert "" + "\n" == "\n";
    Compose(Ready(frames), TextOf(lines), p, "\n", Emit(p));
  }

  /** The end of the stream, wherever it comes, stands for a line break and a blank line. */
  lemma EndIsABlankLine(r: Reader)
    ensures TakeAll(r, "\n\n") == Reader(Finish(r), "")
  {
    var r1 := Take(r, '\n');
    assert "\n\n"[1..] == "\n" && "\n"[1..] == "";
    assert TakeAll(r, "\n\n") == TakeAll(r1, "\n");
    assert TakeAll(r1, "\n") == Take(r1, '\n');
  }

  lemma FinishEmits(p: Parser)
    ensures Finish(Reader(p, "")) == Emit(p)
  {
  }

  /** So a stream that breaks off inside a block still gives the block's frame. */
  lemma CutBlockIsOneFrame(lines: seq<string>, saids: seq<Said>, chunks: seq<string>)
    requires AllSay(lines, saids) && Concat(chunks) == TextOf(lines)
    ensures FramesOf(chunks) == BlockFrame(saids)
  {
    FeedIsTake(Reader(Ready([]), ""), chunks);
    LeadsTold(Ready([]), lines, saids);
    FinishEmits(ToldAll(Ready([]), saids));
    EmitsBlock([], saids);
    assert [] + BlockFrame(saids) == BlockFrame(saids);
  }
}
