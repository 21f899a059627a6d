/** What the soak client's report says of the frames it was given. */
module SoakAudit {
  import opened Wrappers
  import opened Text
  import opened Soak

  /** How many of the frames are of this type. */
  function CountOf(frames: seq<Frame>, event: string): nat {
    if frames == [] then 0
    else CountOf(frames[..|frames| - 1], event) + if frames[|frames| - 1].event == event then 1 else 0
  }

  /** The highest number so far. */
  function Highest(ids: seq<Option<nat>>, last: int): int {
    if ids == [] then last
    else
      var before, id := Highest(ids[..|ids| - 1], last), ids[|ids| - 1];
      if id.Some? && before < id.value then id.value else before
  }

  /** What is wrong with an id, given the highest number before it. */
  datatype Fault = Repeated | Behind | Unreadable

  function FaultOf(id: Option<nat>, highest: int): Option<Fault> {
    match id
    case None => Some(Unreadable)
    case Some(n) => if n == highest then Some(Repeated) else if n < highest then Some(Behind) else None
  }

  function Faults(ids: seq<Option<nat>>, last: int, fault: Fault): nat {
    if ids == [] then 0
    else
      var before := ids[..|ids| - 1];
      Faults(before, last, fault)
      + if FaultOf(ids[|ids| - 1], Highest(before, last)) == Some(fault) then 1 else 0
  }

  lemma {:induction false} AccountAllSnoc(r: Report, ids: seq<Option<nat>>, id: Option<nat>)
    ensures AccountAll(r, ids + [id]) == Account(AccountAll(r, ids), id)
    decreases |ids|
  {
    if ids == [] {
      assert [] + [id] == [id] && [id][1..] == [];
    } else {
      assert (ids + [id])[1..] == ids[1..] + [id];
      AccountAllSnoc(Account(r, ids[0]), ids[1..], id);
    }
  }

  /** Every id is held against the highest number before it: it is counted as unreadable, repeated or behind, or it
      becomes the highest. */
  lemma {:induction false} IdsAreClassified(r: Report, ids: seq<Option<nat>>)
    ensures var r' := AccountAll(r, ids);
            && r'.lastSeq == Highest(ids, r.lastSeq)
            && r'.duplicateSeq == r.duplicateSeq + Faults(ids, r.lastSeq, Repeated)
            && r'.nonMonotonicSeq == r.nonMonotonicSeq + Faults(ids, r.lastSeq, Behind)
            && r'.invalidIDs == r.invalidIDs + Faults(ids, r.lastSeq, Unreadable)
    decreases |ids|
  {
    if ids != [] {
      var before, id := ids[..|ids| - 1], ids[|ids| - 1];
      assert before + [id] == ids;
      IdsAreClassified(r, before);
      AccountAllSnoc(r, before, id);
    }
  }

  /** Each frame is counted under its own type, and under no other. */
  lemma {:induction false} TypesAreCounted(r: Report, frames: seq<Frame>)
    ensures var r' := ApplyAll(r, frames);
            && r'.readyFrames == r.readyFrames + CountOf(frames, "session.ready")
            && r'.resetFrames == r.resetFrames + CountOf(frames, "session.reset")
            && r'.heartbeatFrames == r.heartbeatFrames + CountOf(frames, "heartbeat")
            && r'.sessionEvents == r.sessionEvents + CountOf(frames, "session.event")
    decreases |frames|
  {
    if frames != [] {
      var before, f := frames[..|frames| - 1], frames[|frames| - 1];
      assert before + [f] == frames;
      TypesAreCounted(r, before);
      ApplyLast(r, before, f);
    }
  }

  /** The report after any frames, counter by counter. */
  lemma ReportSaysWhatCame(r: Report, frames: seq<Frame>)
    ensures var r', ids := ApplyAll(r, frames), Ids(frames);
            && r'.readyFrames == r.readyFrames + CountOf(frames, "session.ready")
            && r'.resetFrames == r.resetFrames + CountOf(frames, "session.reset")
            && r'.heartbeatFrames == r.heartbeatFrames + CountOf(frames, "heartbeat")
            && r'.sessionEvents == r.sessionEvents + CountOf(frames, "session.event")
            && r'.lastSeq == Highest(ids, r.lastSeq)
            && r'.duplicateSeq == r.duplicateSeq + Faults(ids, r.lastSeq, Repeated)
            && r'.nonMonotonicSeq == r.nonMonotonicSeq + Faults(ids, r.lastSeq, Behind)
            && r'.invalidIDs == r.invalidIDs + Faults(ids, r.lastSeq, Unreadable)
  {
    TypesAreCounted(r, frames);
    OnlyIdsCount(r, r, frames);
    IdsAreClassified(r, Ids(frames));
  }

  lemma {:induction false} SplitEnds(text: string)
    ensures Split(text + "\n", '\n') == Split(text, '\n') + [""]
  {
    if text == [] {
      assert [] + "\n" == "\n" && "\n"[1..] == [];
    } else {
      assert (text + "\n")[1..] == text[1..] + "\n";
      SplitEnds(text[1..]);
    }
  }

  /** The last line is read whether a line break ends it or the end of the stream does. */
  lemma LastLineIsRead(text: string)
    ensures ScanLines(text + "\n") == Split(text, '\n')
    ensures var lines := Split(text, '\n'); lines[|lines| - 1] != "" ==> ScanLines(text) == lines
    ensures ScanLines("") == []
  {
    SplitEnds(text);
  }

  // ----- the frame of a block -----

  /** Exactly the carriage returns at the end of a line are dropped. */
  lemma {:induction false} ReturnsAreDropped(line: string)
    ensures var r := DropReturns(line);
            r <= line && (r != "" ==> r[|r| - 1] != '\r') && forall i | |r| <= i < |line| :: line[i] == '\r'
    decreases |line|
  {
    if line != "" && line[|line| - 1] == '\r' { ReturnsAreDropped(line[..|line| - 1]); }
  }

  ghost predicate NoneBlank(lines: seq<string>) {
    forall i | 0 <= i < |lines| :: DropReturns(lines[i]) != ""
  }

  /** What the lines that start with `field` say, trimmed, in order. */
  function Values(lines: seq<string>, field: string): seq<string> {
    if lines == [] then [] else LineValues(DropReturns(lines[0]), field) + Values(lines[1..], field)
  }

  function LineValues(line: string, field: string): seq<string> {
    if field <= line then [TrimSpace(line[|field|..])] else []
  }

  function LastOr(values: seq<string>, default: string): string {
    if values == [] then default else values[|values| - 1]
  }

  function DropBlank(values: seq<string>): seq<string> {
    if values != [] && values[0] == "" then DropBlank(values[1..]) else values
  }

  /** Data lines joined by line breaks; blank ones before the first that is not blank leave no trace. */
  function Joined(data: string, values: seq<string>): string {
    if data == "" then Join(DropBlank(values), "\n")
    else if values == [] then data
    else data + "\n" + Join(values, "\n")
  }

  function TakeLines(frame: Frame, lines: seq<string>): Frame
    requires NoneBlank(lines)
    decreases |lines|
  {
    if lines == [] then frame else TakeLines(TakeLine(frame, DropReturns(lines[0])), lines[1..])
  }

  lemma LastOrConcat(a: seq<string>, b: seq<string>, default: string)
    ensures LastOr(a + b, default) == LastOr(b, LastOr(a, default))
  {
  }

  lemma JoinedCons(data: string, value: string, rest: seq<string>)
    ensures Joined(data, [value] + rest) == Joined((if data != "" then data + "\n" else "") + value, rest)
  {
    assert ([value] + rest)[1..] == rest;
    if data != "" {
      if rest == [] {
        assert [value] + rest == [value];
      } else {
        assert data + "\n" + (value + "\n" + Join(rest, "\n")) == data + "\n" + value + "\n" + Join(rest, "\n");
      }
    } else {
      assert "" + value == value;
    }
  }

  /** What one line adds to the data, and to the values. */
  lemma DataOfLine(frame: Frame, line: string)
    requires line != ""
    ensures TakeLine(frame, line).data ==
            if "data:" <= line then (if frame.data != "" then frame.data + "\n" else "") + TrimSpace(line[5..])
            else frame.data
  {
  }

  lemma DataCons(frame: Frame, lines: seq<string>)
    requires lines != [] && DropReturns(lines[0]) != ""
    ensures Joined(frame.data, Values(lines, "data:")) ==
            Joined(TakeLine(frame, DropReturns(lines[0])).data, Values(lines[1..], "data:"))
  {
    var line, more := DropReturns(lines[0]), Values(lines[1..], "data:");
    DataOfLine(frame, line);
    if "data:" <= line {
      assert LineValues(line, "data:") == [TrimSpace(line[5..])];
      JoinedCons(frame.data, TrimSpace(line[5..]), more);
    } else {
      assert Values(lines, "data:") == more;
    }
  }

  lemma {:induction false} TakeLinesSays(frame: Frame, lines: seq<string>)
    requires NoneBlank(lines)
    ensures TakeLines(frame, lines) ==
            Frame(LastOr(Values(lines, "id:"), frame.id), LastOr(Values(lines, "event:"), frame.event),
                  Joined(frame.data, Values(lines, "data:")))
    decreases |lines|
  {
    if lines != [] {
      var line := DropReturns(lines[0]);
      TakeLinesSays(TakeLine(frame, line), lines[1..]);
      LastOrConcat(LineValues(line, "id:"), Values(lines[1..], "id:"), frame.id);
      LastOrConcat(LineValues(line, "event:"), Values(lines[1..], "event:"), frame.event);
      DataCons(frame, lines);
    }
  }

  lemma {:induction false} FramesOfBlock(frame: Frame, lines: seq<string>)
    requires NoneBlank(lines)
    ensures var f := TakeLines(frame, lines); Frames(frame, lines) == if f == NO_FRAME then [] else [f]
    decreases |lines|
  {
    if lines != [] { FramesOfBlock(TakeLine(frame, DropReturns(lines[0])), lines[1..]); }
  }

  lemma {:induction false} FramesSplit(frame: Frame, block: seq<string>, blank: string, rest: seq<string>)
    requires NoneBlank(block) && DropReturns(blank) == ""
    ensures Frames(frame, block + ([blank] + rest)) == Frames(frame, block) + Frames(NO_FRAME, rest)
    decreases |block|
  {
    var all := block + ([blank] + rest);
    if block == [] {
      assert all == [blank] + rest && all[1..] == rest;
    } else {
      assert all[1..] == block[1..] + ([blank] + rest);
      FramesSplit(TakeLine(frame, DropReturns(block[0])), block[1..], blank, rest);
    }
  }

  /** Each block of lines up to a blank one, or up to the end of the stream, gives one frame, or none: the last id and
      event in it, its data lines joined. Other lines count for nothing. */
  lemma BlockIsOneFrame(block: seq<string>, blank: string, rest: seq<string>)
    requires NoneBlank(block) && DropReturns(blank) == ""
    ensures var f := Frame(LastOr(Values(block, "id:"), ""), LastOr(Values(block, "event:"), ""),
                           Join(DropBlank(Values(block, "data:")), "\n"));
            var frames := if f == NO_FRAME then [] else [f];
            && Frames(NO_FRAME, block) == frames
            && Frames(NO_FRAME, block + ([blank] + rest)) == frames + Frames(NO_FRAME, rest)
  {
    TakeLinesSays(NO_FRAME, block);
    FramesOfBlock(NO_FRAME, block);
    FramesSplit(NO_FRAME, block, blank, rest);
  }
}
