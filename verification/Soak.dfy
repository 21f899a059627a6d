/** The soak client: it reads a server-sent event stream and audits the sequence numbers. */
module Soak {
  import opened Wrappers
  import opened Text
  import opened Decimal

  datatype Frame = Frame(id: string, event: string, data: string)

  const NO_FRAME := Frame("", "", "")

  datatype Report = Report(
    readyFrames: nat,
    resetFrames: nat,
    heartbeatFrames: nat,
    sessionEvents: nat,
    lastSeq: int,
    duplicateSeq: nat,
    nonMonotonicSeq: nat,
    missingSeq: nat,
    invalidIDs: nat)

  const EMPTY_REPORT := Report(0, 0, 0, 0, 0, 0, 0, 0, 0)

  /** The sequence number of a `session.event` frame, when its id is a positive decimal. */
  function SeqOf(frame: Frame): (r: Option<nat>)
    ensures r.Some? ==> r.value > 0
  {
    match ParseInt(TrimSpace(frame.id))
    case Some(n) => if n > 0 then Some(n) else None
    case None => None
  }

  function Apply(r: Report, frame: Frame): Report {
    if frame.event == "session.ready" then r.(readyFrames := r.readyFrames + 1)
    else if frame.event == "session.reset" then r.(resetFrames := r.resetFrames + 1)
    else if frame.event == "heartbeat" then r.(heartbeatFrames := r.heartbeatFrames + 1)
    else if frame.event != "session.event" then r
    else Account(r.(sessionEvents := r.sessionEvents + 1), SeqOf(frame))
  }

  function Account(r: Report, id: Option<nat>): Report {
    match id
    case None => r.(invalidIDs := r.invalidIDs + 1)
    case Some(n) =>
      if n == r.lastSeq then r.(duplicateSeq := r.duplicateSeq + 1)
      else if n < r.lastSeq then r.(nonMonotonicSeq := r.nonMonotonicSeq + 1)
      else r.(missingSeq := r.missingSeq + (n - r.lastSeq - 1), lastSeq := n)
  }

  function ApplyAll(r: Report, frames: seq<Frame>): Report
    decreases |frames|
  {
    if frames == [] then r else ApplyAll(Apply(r, frames[0]), frames[1..])
  }

  // ----- what the counters mean -----

  /** The ids of the `session.event` frames, in order. */
  function Ids(frames: seq<Frame>): seq<Option<nat>> {
    if frames == [] then []
    else if frames[0].event == "session.event" then [SeqOf(frames[0])] + Ids(frames[1..])
    else Ids(frames[1..])
  }

  /** The ids that are higher than every id before them. */
  function Records(ids: seq<Option<nat>>, last: int): seq<int> {
    if ids == [] then []
    else if ids[0].Some? && last < ids[0].value then [ids[0].value] + Records(ids[1..], ids[0].value)
    else Records(ids[1..], last)
  }

  ghost predicate IncreasingAbove(s: seq<int>, last: int) {
    (forall i | 0 <= i < |s| :: last < s[i]) && forall i, j | 0 <= i < j < |s| :: s[i] < s[j]
  }

  /** The ids count up from `last + 1` without gap, repeat, disorder or unreadable id. */
  predicate CountsUp(ids: seq<Option<nat>>, last: int) {
    forall i | 0 <= i < |ids| :: ids[i].Some? && ids[i].value == last + 1 + i
  }

  function Anomalies(r: Report): nat {
    r.duplicateSeq + r.nonMonotonicSeq + r.missingSeq + r.invalidIDs
  }

  function AccountAll(r: Report, ids: seq<Option<nat>>): Report
    decreases |ids|
  {
    if ids == [] then r else AccountAll(Account(r, ids[0]), ids[1..])
  }

  /** Only the ids of `session.event` frames reach the cursor and the anomaly counters. */
  lemma {:induction false} OnlyIdsCount(r: Report, r0: Report, frames: seq<Frame>)
    requires r0 == r.(readyFrames := r0.readyFrames, resetFrames := r0.resetFrames,
                      heartbeatFrames := r0.heartbeatFrames, sessionEvents := r0.sessionEvents)
    ensures var r', c := ApplyAll(r0, frames), AccountAll(r, Ids(frames));
            && r'.sessionEvents == r0.sessionEvents + |Ids(frames)|
            && r'.lastSeq == c.lastSeq && r'.duplicateSeq == c.duplicateSeq && r'.missingSeq == c.missingSeq
            && r'.nonMonotonicSeq == c.nonMonotonicSeq && r'.invalidIDs == c.invalidIDs
    decreases |frames|
  {
    if frames != [] {
      if frames[0].event == "session.event" {
        assert Ids(frames)[1..] == Ids(frames[1..]);
        OnlyIdsCount(Account(r, SeqOf(frames[0])), Apply(r0, frames[0]), frames[1..]);
      } else {
        OnlyIdsCount(r, Apply(r0, frames[0]), frames[1..]);
      }
    }
  }

  lemma {:induction false} IdsAccounting(r: Report, ids: seq<Option<nat>>)
    requires 0 <= r.lastSeq
    ensures var r', accepted := AccountAll(r, ids), Records(ids, r.lastSeq);
            && r'.lastSeq - r.lastSeq == |accepted| + (r'.missingSeq - r.missingSeq)
            && |ids| == |accepted| + (r'.duplicateSeq - r.duplicateSeq)
                        + (r'.nonMonotonicSeq - r.nonMonotonicSeq) + (r'.invalidIDs - r.invalidIDs)
            && IncreasingAbove(accepted, r.lastSeq)
            && r'.lastSeq == (if accepted == [] then r.lastSeq else accepted[|accepted| - 1])
    decreases |ids|
  {
    if ids != [] { IdsAccounting(Account(r, ids[0]), ids[1..]); }
  }

  /** The cursor splits into accepted and missing numbers, the event count into accepted and rejected
      frames, and the accepted numbers increase up to the cursor. */
  lemma AccountingIsExact(r: Report, frames: seq<Frame>)
    requires 0 <= r.lastSeq
    ensures var r', accepted := ApplyAll(r, frames), Records(Ids(frames), r.lastSeq);
            && r'.lastSeq - r.lastSeq == |accepted| + (r'.missingSeq - r.missingSeq)
            && r'.sessionEvents - r.sessionEvents
               == |accepted| + (r'.duplicateSeq - r.duplicateSeq)
                  + (r'.nonMonotonicSeq - r.nonMonotonicSeq) + (r'.invalidIDs - r.invalidIDs)
            && IncreasingAbove(accepted, r.lastSeq)
            && r'.lastSeq == (if accepted == [] then r.lastSeq else accepted[|accepted| - 1])
  {
    OnlyIdsCount(r, r, frames);
    IdsAccounting(r, Ids(frames));
  }

  lemma {:induction false} IdsQuiet(r: Report, ids: seq<Option<nat>>)
    requires 0 <= r.lastSeq
    ensures Anomalies(r) <= Anomalies(AccountAll(r, ids))
    ensures Anomalies(AccountAll(r, ids)) == Anomalies(r) <==> CountsUp(ids, r.lastSeq)
    decreases |ids|
  {
    if ids != [] {
      var r1, rest := Account(r, ids[0]), ids[1..];
      IdsQuiet(r1, rest);
      if ids[0] == Some(r.lastSeq + 1) {
        assert CountsUp(ids, r.lastSeq) ==> forall i | 0 <= i < |rest| :: rest[i] == ids[i + 1];
      }
    }
  }

  /** The anomaly counters stay where they are exactly when the ids count up from the cursor. */
  lemma QuietExactlyWhenCountingUp(r: Report, frames: seq<Frame>)
    requires 0 <= r.lastSeq
    ensures Anomalies(ApplyAll(r, frames)) == Anomalies(r) <==> CountsUp(Ids(frames), r.lastSeq)
  {
    OnlyIdsCount(r, r, frames);
    IdsQuiet(r, Ids(frames));
  }

  // ----- reading the stream -----

  /** The lines a scanner yields: what is between line breaks, and after the last one if that is not empty. */
  function ScanLines(text: string): seq<string> {
    var parts := Split(text, '\n');
    if parts[|parts| - 1] == "" then parts[..|parts| - 1] else parts
  }

  /** One line of the stream, after the line break and trailing carriage returns are gone. */
  function TakeLine(frame: Frame, line: string): Frame
    requires line != ""
  {
    if line[0] == ':' then frame
    else if "id:" <= line then frame.(id := TrimSpace(line[3..]))
    else if "event:" <= line then frame.(event := TrimSpace(line[6..]))
    else if "data:" <= line then
      frame.(data := (if frame.data != "" then frame.data + "\n" else "") + TrimSpace(line[5..]))
    else frame
  }

  function DropReturns(line: string): string {
    if line != "" && line[|line| - 1] == '\r' then DropReturns(line[..|line| - 1]) else line
  }

  /** The frames that a list of lines completes, including a last one cut short by the end. */
  function Frames(frame: Frame, lines: seq<string>): seq<Frame>
    decreases |lines|
  {
    if lines == [] then (if frame == NO_FRAME then [] else [frame])
    else
      var line := DropReturns(lines[0]);
      if line != "" then Frames(TakeLine(frame, line), lines[1..])
      else (if frame == NO_FRAME then [] else [frame]) + Frames(NO_FRAME, lines[1..])
  }

  lemma {:induction false} ApplyAllConcat(r: Report, a: seq<Frame>, b: seq<Frame>)
    ensures ApplyAll(r, a + b) == ApplyAll(ApplyAll(r, a), b)
    decreases |a|
  {
    if a == [] {
      assert a + b == b;
    } else {
      assert (a + b)[1..] == a[1..] + b;
      ApplyAllConcat(Apply(r, a[0]), a[1..], b);
    }
  }

  lemma ApplyLast(r: Report, a: seq<Frame>, f: Frame)
    ensures ApplyAll(r, a + [f]) == Apply(ApplyAll(r, a), f)
  {
    ApplyAllConcat(r, a, [f]);
    assert [f][1..] == [];
  }

  class SoakClient {
    var report: Report

    method ApplyFrame(frame: Frame)
      modifies this
      ensures report == Apply(old(report), frame)
    {
      match frame.event {
        case "session.ready" =>
          report := report.(readyFrames := report.readyFrames + 1);
          return;
        case "session.reset" =>
          report := report.(resetFrames := report.resetFrames + 1);
          return;
        case "heartbeat" =>
          report := report.(heartbeatFrames := report.heartbeatFrames + 1);
          return;
        case "session.event" =>
          report := report.(sessionEvents := report.sessionEvents + 1);
        case _ =>
          return;
      }
      var parsed := ParseInt(TrimSpace(frame.id));
      if parsed.None? || parsed.value <= 0 {
        report := report.(invalidIDs := report.invalidIDs + 1);
        return;
      }
      var n: nat := parsed.value;
      var last := report.lastSeq;
      if n == last {
        report := report.(duplicateSeq := report.duplicateSeq + 1);
        return;
      } else if n < last {
        report := report.(nonMonotonicSeq := report.nonMonotonicSeq + 1);
        return;
      } else if n > last + 1 {
        report := report.(missingSeq := report.missingSeq + (n - last - 1));
      }
      report := report.(lastSeq := n);
    }

    /** Reads the lines of one connection and applies every frame they complete. */
    method ConsumeSSE(lines: seq<string>)
      modifies this
      ensures report == ApplyAll(old(report), Frames(NO_FRAME, lines))
    {
      var frame := NO_FRAME;
      ghost var all := Frames(NO_FRAME, lines);
      ghost var done: seq<Frame> := [];
      for i := 0 to |lines|
        invariant all == done + Frames(frame, lines[i..])
        invariant report == ApplyAll(old(report), done)
      {
        assert lines[i..][0] == lines[i] && lines[i..][1..] == lines[i + 1..];
        var line := DropReturns(lines[i]);
        if line != "" {
          frame := TakeLine(frame, line);
        } else if frame != NO_FRAME {
          ApplyLast(old(report), done, frame);
          ApplyFrame(frame);
          done := done + [frame];
          frame := NO_FRAME;
        }
      }
      assert lines[|lines|..] == [] && done + [] == done;
      if frame != NO_FRAME {
        ApplyLast(old(report), done, frame);
        ApplyFrame(frame);
      }
    }
  }
}
