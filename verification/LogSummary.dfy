/** What the summary of a log says, in terms of the log alone: its last message, or else its joined deltas, and
    its last terminal event. */
module LogSummary {
  import opened Text
  import opened SessionLog
  import opened SyncRepair
  import opened Records

  // ----- what is in the log -----

  /** An empty run id means every run. */
  predicate OfRun(e: SessionEvent, runID: string) {
    runID == "" || TrimSpace(e.runID) == runID
  }

  /** The chunk lines of one of the run's assistant deltas. */
  function EventLines(e: SessionEvent, runID: string): seq<ChunkLine> {
    if OfRun(e, runID) && TrimSpace(e.kind) == "assistant.delta" && e.payload.Chunk? then e.payload.lines else []
  }

  /** All of them, in log order. */
  function LinesOf(events: seq<SessionEvent>, runID: string): seq<ChunkLine> {
    if events == [] then [] else EventLines(events[0], runID) + LinesOf(events[1..], runID)
  }

  const MESSAGE_TYPES: set<string> := {"agent_message", "agentmessage", "assistant_message", "message"}

  /** The trimmed text of a completed message that is not blank. */
  function LineMessages(line: ChunkLine): seq<string> {
    if line.ItemCompleted? && line.itemType in MESSAGE_TYPES && TrimSpace(line.text) != "" then [TrimSpace(line.text)]
    else []
  }

  function Messages(lines: seq<ChunkLine>): seq<string> {
    if lines == [] then [] else LineMessages(lines[0]) + Messages(lines[1..])
  }

  function LineDelta(line: ChunkLine): string {
    if line.AgentDelta? then line.delta else ""
  }

  /** All deltas, joined in order. */
  function Joined(lines: seq<ChunkLine>): string {
    if lines == [] then "" else LineDelta(lines[0]) + Joined(lines[1..])
  }

  /** The terminal state that one of the run's events announces. */
  function EventEndings(e: SessionEvent, runID: string): seq<string> {
    if !OfRun(e, runID) then []
    else if TrimSpace(e.kind) == TerminalKind("succeeded") then ["succeeded"]
    else if TrimSpace(e.kind) == TerminalKind("failed") then ["failed"]
    else if TrimSpace(e.kind) == TerminalKind("canceled") then ["canceled"]
    else []
  }

  function Endings(events: seq<SessionEvent>, runID: string): seq<string> {
    if events == [] then [] else EventEndings(events[0], runID) + Endings(events[1..], runID)
  }

  function LastOf(q: seq<string>, none: string): string {
    if q == [] then none else q[|q| - 1]
  }

  /** The last message, or else the joined deltas, trimmed. */
  function LoggedText(events: seq<SessionEvent>, runID: string): string {
    var lines := LinesOf(events, runID);
    if Messages(lines) == [] then TrimSpace(Joined(lines)) else LastOf(Messages(lines), "")
  }

  // ----- what the summary makes of it -----

  lemma LastOfConcat(a: seq<string>, b: seq<string>, none: string)
    ensures LastOf(a + b, none) == LastOf(b, LastOf(a, none))
  {
  }

  lemma {:induction false} MessagesConcat(x: seq<ChunkLine>, y: seq<ChunkLine>)
    ensures Messages(x + y) == Messages(x) + Messages(y)
    decreases |x|
  {
    if x == [] {
      assert x + y == y;
    } else {
      assert (x + y)[1..] == x[1..] + y;
      MessagesConcat(x[1..], y);
      Regroup(LineMessages(x[0]), Messages(x[1..]), Messages(y));
    }
  }

  lemma {:induction false} JoinedConcat(x: seq<ChunkLine>, y: seq<ChunkLine>)
    ensures Joined(x + y) == Joined(x) + Joined(y)
    decreases |x|
  {
    if x == [] {
      assert x + y == y;
    } else {
      assert (x + y)[1..] == x[1..] + y;
      JoinedConcat(x[1..], y);
      Regroup(LineDelta(x[0]), Joined(x[1..]), Joined(y));
    }
  }

  /** What has been read: the text is the last message so far, and without one the deltas are all there were. */
  predicate Says(b: Acc, a: Acc, messages: seq<string>, deltas: string, endings: seq<string>) {
    && b.text == LastOf(messages, a.text)
    && (messages == [] ==> b.deltas == a.deltas + deltas)
    && b.terminal == LastOf(endings, a.terminal)
  }

  lemma SaysThen(a: Acc, b: Acc, c: Acc, m: seq<string>, m': seq<string>, d: string, d': string, e: seq<string>,
        e': seq<string>)
    requires Says(b, a, m, d, e) && Says(c, b, m', d', e')
    ensures Says(c, a, m + m', d + d', e + e')
  {
    LastOfConcat(m, m', a.text);
    LastOfConcat(e, e', a.terminal);
    Regroup(a.deltas, d, d');
  }

  lemma ReadLineSays(a: Acc, line: ChunkLine)
    ensures Says(ReadLine(a, line), a, LineMessages(line), LineDelta(line), [])
  {
  }

  lemma {:induction false} ReadLinesSays(a: Acc, lines: seq<ChunkLine>)
    ensures Says(ReadLines(a, lines), a, Messages(lines), Joined(lines), [])
    decreases |lines|
  {
    if lines == [] {
      assert a.deltas + "" == a.deltas;
    } else {
      var b, rest := ReadLine(a, lines[0]), lines[1..];
      ReadLineSays(a, lines[0]);
      ReadLinesSays(b, rest);
      SaysThen(a, b, ReadLines(b, rest), LineMessages(lines[0]), Messages(rest), LineDelta(lines[0]), Joined(rest),
               [], []);
    }
  }

  lemma ReadEventSays(a: Acc, e: SessionEvent, runID: string)
    ensures var lines := EventLines(e, runID);
            Says(ReadEvent(a, e, runID), a, Messages(lines), Joined(lines), EventEndings(e, runID))
  {
    ReadLinesSays(a, EventLines(e, runID));
    assert EventLines(e, runID) == [] ==> ReadLines(a, EventLines(e, runID)) == a;
  }

  lemma {:induction false} ReadEventsSays(a: Acc, events: seq<SessionEvent>, runID: string)
    ensures var lines := LinesOf(events, runID);
            Says(ReadEvents(a, events, runID), a, Messages(lines), Joined(lines), Endings(events, runID))
    decreases |events|
  {
    if events == [] {
      assert a.deltas + "" == a.deltas;
    } else {
      var b, rest := ReadEvent(a, events[0], runID), events[1..];
      var first, more := EventLines(events[0], runID), LinesOf(rest, runID);
      ReadEventSays(a, events[0], runID);
      ReadEventsSays(b, rest, runID);
      SaysThen(a, b, ReadEvents(b, rest, runID), Messages(first), Messages(more), Joined(first), Joined(more),
               EventEndings(events[0], runID), Endings(rest, runID));
      MessagesConcat(first, more);
      JoinedConcat(first, more);
    }
  }

  /** The summary of a log: the last message that is not blank, or else the deltas of all lines and events joined
      in order and trimmed; and the last terminal state. */
  lemma SummarySaysWhatIsLogged(st: State, id: string, runID: string)
    ensures var events := ListEvents(st, id, 0, SCAN_LIMIT);
            && SummaryOf(st, id, runID).terminalState == LastOf(Endings(events, runID), "")
            && SummaryOf(st, id, runID).assistantText == LoggedText(events, runID)
  {
    var events := ListEvents(st, id, 0, SCAN_LIMIT);
    ReadEventsSays(NOTHING, events, runID);
    MessagesAreNamed(LinesOf(events, runID));
    assert "" + Joined(LinesOf(events, runID)) == Joined(LinesOf(events, runID));
  }

  lemma {:induction false} MessagesAreNamed(lines: seq<ChunkLine>)
    ensures forall i | 0 <= i < |Messages(lines)| :: Messages(lines)[i] != ""
  {
    if lines != [] { MessagesAreNamed(lines[1..]); }
  }

  /** Without a missing text no text event is appended. */
  lemma NoTextAppended(s: Snapshot, known: Summary, title: string, id: string)
    requires known.assistantText == s.assistantText
    ensures forall e | e in SyncRepair.Missing(s, known, title, id) :: e.kind != "assistant.delta"
  {
    assert MissingText(s, known, id) == [];
    assert forall e | e in MissingTitle(s, title, id) :: e.kind == "session.title.updated";
    assert forall e | e in MissingTerminal(s, known, id) :: e.kind == TerminalKind(s.status);
  }

  /** A log whose joined deltas are the snapshot's text, or whose last message is, gets no text from a sync. */
  lemma LoggedTextIsNotRepaired(st: State, id: string, s: Snapshot, requested: string)
    requires s.assistantText == LoggedText(ListEvents(st, id, 0, SCAN_LIMIT), s.runID)
    ensures forall e | e in MissingFrom(st, id, s, requested) :: e.kind != "assistant.delta"
  {
    SummarySaysWhatIsLogged(st, id, s.runID);
    NoTextAppended(s, SummaryOf(st, id, s.runID), Upserted(st, id, s, requested).title, id);
  }

  // ----- what a sync leaves behind -----

  /** The event that repairs a text says that text. */
  lemma TextEventSaysText(id: string, s: Snapshot)
    requires WellFormed(s) && s.assistantText != ""
    ensures Messages(EventLines(TextEvent(id, s), s.runID)) == [s.assistantText]
    ensures TextEvent(id, s).runID == s.runID && TextEvent(id, s).sessionID == id
  {
    var line := ItemCompleted("agent_message", TrimSpace(s.assistantText));
    assert EventLines(TextEvent(id, s), s.runID) == [line] && [line][1..] == [];
    assert LineMessages(line) == [s.assistantText];
  }

  /** The event that repairs a terminal state announces that state. */
  lemma TerminalEventSaysState(id: string, s: Snapshot)
    requires WellFormed(s) && TerminalKind(s.status) != ""
    ensures EventEndings(TerminalEvent(id, s), s.runID) == [s.status]
    ensures TerminalEvent(id, s).runID == s.runID && TerminalEvent(id, s).sessionID == id
  {
  }

  /** The event that repairs a title carries it, and says nothing else. */
  lemma TitleEventSaysTitle(id: string, s: Snapshot)
    requires WellFormed(s)
    ensures var e := TitleEvent(id, s);
            && e.payload == OtherPayload(s.title) && e.runID == s.runID && e.sessionID == id
            && EventLines(e, s.runID) == [] && EventEndings(e, s.runID) == []
  {
  }

  // ----- the record after a sync -----

  lemma {:induction false} PutIsRead(sessions: seq<SessionRecord>, r: SessionRecord)
    ensures FindRecord(PutRecord(sessions, r), r.id) == r
  {
    if sessions != [] { PutIsRead(sessions[1..], r); }
  }

  lemma {:induction false} UnknownIsBlank(sessions: seq<SessionRecord>, id: string)
    requires forall r | r in sessions :: r.id != id
    ensures FindRecord(sessions, id) == SessionRecord(id, "", "", "")
  {
    if sessions != [] { UnknownIsBlank(sessions[1..], id); }
  }

  /** The upsert before the repair touches the title only: the requested one, else the snapshot's, else its own. */
  lemma UpsertTouchesTitle(st: State, id: string, s: Snapshot, requested: string)
    requires id != "" && IsTrimmed(id) && WellFormed(s)
    ensures var r, before := Upserted(st, id, s, requested), TrimRecord(RecordOf(st, id));
            && r.id == id && r.lastRunID == before.lastRunID && r.lastStatus == before.lastStatus
            && r.title == if TrimSpace(requested) != "" then TrimSpace(requested)
                          else if s.title != "" then s.title else before.title
  {
  }

  lemma SettledRecord(r: SessionRecord, s: Snapshot)
    requires TrimRecord(r) == r && WellFormed(s)
    ensures var after := Settled(r, s);
            && after.id == r.id
            && after.title == (if s.title != "" then s.title else r.title)
            && after.lastRunID == (if s.runID != "" then s.runID else r.lastRunID)
            && after.lastStatus == (if s.status != "" then s.status else r.lastStatus)
  {
  }

  /** After a sync the session's record has the snapshot's run, status and title where the snapshot has one, and
      otherwise what it had (nothing, for a new session), save that a requested title replaces its own; all other
      records are as they were. */
  lemma SyncSettlesRecord(st: State, id: string, s: Snapshot, requested: string)
    requires Valid(st) && DistinctRecords(st.sessions) && id != "" && IsTrimmed(id) && WellFormed(s)
    ensures var st', before := Sync(st, id, s, requested).0, TrimRecord(RecordOf(st, id));
            && HasSession(st', id) && DistinctRecords(st'.sessions)
            && (!HasSession(st, id) ==> before == SessionRecord(id, "", "", ""))
            && OtherRecords(st'.sessions, id) == OtherRecords(st.sessions, id)
            && RecordOf(st', id).lastRunID == (if s.runID != "" then s.runID else before.lastRunID)
            && RecordOf(st', id).lastStatus == (if s.status != "" then s.status else before.lastStatus)
            && RecordOf(st', id).title == if s.title != "" then s.title
                                          else if TrimSpace(requested) != "" then TrimSpace(requested)
                                          else before.title
  {
    var r := Upserted(st, id, s, requested);
    UpsertTouchesTitle(st, id, s, requested);
    SettledRecord(r, s);
    PutIsRead(st.sessions, r);
    PutKeepsOthers(st.sessions, r);
    var put := PutRecord(st.sessions, r);
    PutIsRead(put, Settled(r, s));
    PutKeepsOthers(put, Settled(r, s));
    if !HasSession(st, id) { UnknownIsBlank(st.sessions, id); }
  }
}
