/** Repairing a session's log from a remote thread snapshot: summarise the log, append what is missing. */
module SyncRepair {
  import opened Text
  import opened SessionLog

  const SCAN_LIMIT := 2000

  // ----- the remote snapshot -----

  /** One item of a turn; kind and phase are trimmed and lower-cased. */
  datatype Item = Item(kind: string, phase: string, text: string)

  datatype Turn = Turn(id: string, status: string, items: seq<Item>)

  datatype Snapshot = Snapshot(title: string, runID: string, status: string, assistantText: string)

  function StatusOf(turnStatus: string): string {
    if turnStatus == "completed" then "succeeded"
    else if turnStatus == "failed" then "failed"
    else if turnStatus == "interrupted" then "canceled"
    else if turnStatus == "inprogress" then "running"
    else ""
  }

  /** The text an item contributes: that of a non-blank agent message, of the final answer if `final`. */
  function Said(item: Item, final: bool): string {
    if item.kind == "agentmessage" && (final ==> item.phase == "final_answer") then TrimSpace(item.text) else ""
  }

  function LastSaid(items: seq<Item>, final: bool): string {
    if items == [] then ""
    else if Said(items[|items| - 1], final) != "" then Said(items[|items| - 1], final)
    else LastSaid(items[..|items| - 1], final)
  }

  /** The last final answer, or else the last agent message. */
  method ExtractAssistantText(items: seq<Item>) returns (text: string)
    ensures text == if LastSaid(items, true) != "" then LastSaid(items, true) else LastSaid(items, false)
  {
    var latest, final := "", "";
    for i := 0 to |items|
      invariant latest == LastSaid(items[..i], false) && final == LastSaid(items[..i], true)
    {
      assert items[..i + 1][..i] == items[..i];
      var item := items[i];
      if item.kind == "agentmessage" {
        var said := TrimSpace(item.text);
        if said != "" {
          latest := said;
          if item.phase == "final_answer" {
            final := said;
          }
        }
      }
    }
    assert items[..|items|] == items;
    return if final != "" then final else latest;
  }

  function SnapshotOf(title: string, turns: seq<Turn>): Snapshot {
    var name := TrimSpace(title);
    if turns == [] then Snapshot(name, "", "", "")
    else
      var last := turns[|turns| - 1];
      var final := LastSaid(last.items, true);
      Snapshot(name, TrimSpace(last.id), StatusOf(last.status),
               if final != "" then final else LastSaid(last.items, false))
  }

  ghost predicate WellFormed(s: Snapshot) {
    && IsTrimmed(s.title) && IsTrimmed(s.runID) && IsTrimmed(s.assistantText)
    && s.status in {"", "running", "succeeded", "failed", "canceled"}
  }

  lemma {:induction false} LastSaidIsTrimmed(items: seq<Item>, final: bool)
    ensures IsTrimmed(LastSaid(items, final))
  {
    if items != [] { LastSaidIsTrimmed(items[..|items| - 1], final); }
  }

  lemma SnapshotsAreWellFormed(title: string, turns: seq<Turn>)
    ensures WellFormed(SnapshotOf(title, turns))
  {
    if turns != [] {
      LastSaidIsTrimmed(turns[|turns| - 1].items, true);
      LastSaidIsTrimmed(turns[|turns| - 1].items, false);
    }
  }

  // ----- the log summary -----

  datatype Summary = Summary(assistantText: string, terminalState: string)

  /** The summary in the making: the last completed text, the deltas since, the last terminal state. */
  datatype Acc = Acc(text: string, deltas: string, terminal: string)

  const NOTHING := Acc("", "", "")

  predicate IsMessage(itemType: string) {
    itemType == "agent_message" || itemType == "agentmessage" || itemType == "assistant_message"
      || itemType == "message"
  }

  function ReadLine(a: Acc, line: ChunkLine): Acc {
    match line
    case AgentDelta(delta) => a.(deltas := a.deltas + delta)
    case ItemCompleted(itemType, text) =>
      if IsMessage(itemType) && TrimSpace(text) != "" then a.(text := TrimSpace(text), deltas := "") else a
    case OtherLine => a
  }

  function ReadLines(a: Acc, lines: seq<ChunkLine>): Acc
    decreases |lines|
  {
    if lines == [] then a else ReadLines(ReadLine(a, lines[0]), lines[1..])
  }

  function ReadEvent(a: Acc, e: SessionEvent, runID: string): Acc {
    if runID != "" && TrimSpace(e.runID) != runID then a
    else if TrimSpace(e.kind) == "assistant.delta" then
      (if e.payload.Chunk? then ReadLines(a, e.payload.lines) else a)
    else if TrimSpace(e.kind) == "run.completed" then a.(terminal := "succeeded")
    else if TrimSpace(e.kind) == "run.failed" then a.(terminal := "failed")
    else if TrimSpace(e.kind) == "run.canceled" then a.(terminal := "canceled")
    else a
  }

  function ReadEvents(a: Acc, events: seq<SessionEvent>, runID: string): Acc
    decreases |events|
  {
    if events == [] then a else ReadEvents(ReadEvent(a, events[0], runID), events[1..], runID)
  }

  function Closing(a: Acc): Summary {
    Summary(if a.text == "" then TrimSpace(a.deltas) else a.text, a.terminal)
  }

  function SummaryOf(st: State, sessionID: string, runID: string): Summary {
    Closing(ReadEvents(NOTHING, ListEvents(st, sessionID, 0, SCAN_LIMIT), runID))
  }

  method Summarize(store: Store, sessionID: string, runID: string) returns (out: Summary)
    ensures out == SummaryOf(store.state, sessionID, TrimSpace(runID))
  {
    var events := store.ListSessionEvents(sessionID, 0, SCAN_LIMIT);
    var normalized := TrimSpace(runID);
    var a := NOTHING;
    for i := 0 to |events|
      invariant ReadEvents(a, events[i..], normalized) == ReadEvents(NOTHING, events, normalized)
    {
      assert events[i..][0] == events[i] && events[i..][1..] == events[i + 1..];
      a := SummarizeEvent(a, events[i], normalized);
    }
    return Closing(a);
  }

  method SummarizeEvent(a: Acc, e: SessionEvent, runID: string) returns (out: Acc)
    ensures out == ReadEvent(a, e, runID)
  {
    out := a;
    if runID != "" && TrimSpace(e.runID) != runID {
      return;
    }
    var kind := TrimSpace(e.kind);
    if kind == "assistant.delta" {
      if e.payload.Chunk? {
        var lines := e.payload.lines;
        for i := 0 to |lines|
          invariant ReadLines(out, lines[i..]) == ReadLines(a, lines)
        {
          assert lines[i..][0] == lines[i] && lines[i..][1..] == lines[i + 1..];
          out := ReadLine(out, lines[i]);
        }
      }
    } else if kind == "run.completed" {
      out := out.(terminal := "succeeded");
    } else if kind == "run.failed" {
      out := out.(terminal := "failed");
    } else if kind == "run.canceled" {
      out := out.(terminal := "canceled");
    }
  }

  // ----- the repair -----

  function TerminalKind(status: string): string {
    if status == "succeeded" then "run.completed"
    else if status == "failed" then "run.failed"
    else if status == "canceled" then "run.canceled"
    else ""
  }

  function TitleEvent(id: string, s: Snapshot): SessionEvent {
    SessionEvent(id, s.runID, 0, "session.title.updated", OtherPayload(s.title))
  }

  function TextEvent(id: string, s: Snapshot): SessionEvent {
    SessionEvent(id, s.runID, 0, "assistant.delta", Chunk([ItemCompleted("agent_message", TrimSpace(s.assistantText))]))
  }

  function TerminalEvent(id: string, s: Snapshot): SessionEvent {
    SessionEvent(id, s.runID, 0, TerminalKind(s.status), OtherPayload(s.runID))
  }

  /** The session's title after it is upserted: the requested one, else the snapshot's, else as before. */
  function TitleAfter(requested: string, s: Snapshot, existing: string): string {
    if TrimSpace(requested) != "" then TrimSpace(requested) else if s.title != "" then s.title else existing
  }

  function MissingTitle(s: Snapshot, title: string, id: string): seq<SessionEvent> {
    if s.title != "" && s.title != title then [TitleEvent(id, s)] else []
  }

  function MissingText(s: Snapshot, known: Summary, id: string): seq<SessionEvent> {
    if s.assistantText != "" && s.assistantText != known.assistantText then [TextEvent(id, s)] else []
  }

  function MissingTerminal(s: Snapshot, known: Summary, id: string): seq<SessionEvent> {
    if s.status != "" && s.status != "running" && s.status != known.terminalState && TerminalKind(s.status) != ""
    then [TerminalEvent(id, s)] else []
  }

  /** What one sync appends, in order. */
  function Missing(s: Snapshot, known: Summary, title: string, id: string): seq<SessionEvent> {
    MissingTitle(s, title, id) + MissingText(s, known, id) + MissingTerminal(s, known, id)
  }

  function AppendAll(st: State, events: seq<SessionEvent>): (st': State)
    requires 0 <= st.sessionEventsMax
    ensures st'.sessionEventsMax == st.sessionEventsMax && st'.sessions == st.sessions
    decreases |events|
  {
    if events == [] then st
    else
      match AppendEvent(st, events[0])
      case Ok((st', _)) => AppendAll(st', events[1..])
      case Err(_) => AppendAll(st, events[1..])
  }

  function RecordOf(st: State, id: string): SessionRecord {
    FindRecord(st.sessions, id)
  }

  function FindRecord(sessions: seq<SessionRecord>, id: string): SessionRecord {
    if sessions == [] then SessionRecord(id, "", "", "")
    else if sessions[0].id == id then sessions[0]
    else FindRecord(sessions[1..], id)
  }

  function WithRecord(st: State, r: SessionRecord): State {
    st.(sessions := PutRecord(st.sessions, r))
  }

  /** The record the session is upserted with before anything is appended. */
  function Upserted(st: State, id: string, s: Snapshot, requested: string): SessionRecord {
    TrimRecord(RecordOf(st, id).(id := id, title := TitleAfter(requested, s, RecordOf(st, id).title)))
  }

  /** The record it is left with. */
  function Settled(r: SessionRecord, s: Snapshot): SessionRecord {
    TrimRecord(SessionRecord(r.id, if s.title != "" then s.title else r.title,
                             if s.runID != "" then s.runID else r.lastRunID,
                             if s.status != "" then s.status else r.lastStatus))
  }

  function MissingFrom(st: State, id: string, s: Snapshot, requested: string): seq<SessionEvent> {
    Missing(s, SummaryOf(st, id, s.runID), Upserted(st, id, s, requested).title, id)
  }

  /** The store and the number of appended events after one sync, when every save succeeds. */
  function Sync(st: State, id: string, s: Snapshot, requested: string): (State, nat)
    requires 0 <= st.sessionEventsMax
  {
    var r := Upserted(st, id, s, requested);
    var missing := MissingFrom(st, id, s, requested);
    var st1 := AppendAll(WithRecord(st, r), missing);
    (if missing != [] || s.runID != "" || s.status != "" || s.title != "" then WithRecord(st1, Settled(r, s)) else st1,
     |missing|)
  }

  lemma {:induction false} AppendAllConcat(st: State, x: seq<SessionEvent>, y: seq<SessionEvent>)
    requires 0 <= st.sessionEventsMax
    ensures AppendAll(st, x + y) == AppendAll(AppendAll(st, x), y)
    decreases |x|
  {
    if x == [] {
      assert x + y == y;
    } else {
      assert (x + y)[1..] == x[1..] + y && (x + y)[0] == x[0];
      AppendAllConcat(match AppendEvent(st, x[0]) case Ok((st', _)) => st' case Err(_) => st, x[1..], y);
    }
  }

  method AppendDirect(store: Store, event: SessionEvent) returns (ok: bool)
    requires 0 <= store.state.sessionEventsMax
    modifies store
    ensures store.state == AppendAll(old(store.state), [event])
    ensures store.state.sessionEventsMax == old(store.state.sessionEventsMax)
    ensures ok <==> TrimSpace(event.sessionID) != "" && TrimSpace(event.kind) != ""
  {
    assert [event][1..] == [];
    if TrimSpace(event.sessionID) == "" || TrimSpace(event.kind) == "" {
      return false;
    }
    var r := store.AppendSessionEvent(event, true);
    ok := r.Ok?;
  }

  /** The repair as it runs against the store, when every save succeeds. */
  method SyncSession(store: Store, id: string, s: Snapshot, requested: string) returns (recovered: nat)
    requires 0 <= store.state.sessionEventsMax && id != "" && IsTrimmed(id) && IsTrimmed(s.runID)
    modifies store
    ensures (store.state, recovered) == Sync(old(store.state), id, s, requested)
  {
    ghost var r0 := Upserted(store.state, id, s, requested);
    ghost var st0 := WithRecord(store.state, r0);
    var session := UpsertThread(store, id, s, requested);
    var known := Summarize(store, id, s.runID);
    recovered := AppendMissing(store, id, s, known, session.title);
    session := session.(title := if s.title != "" then s.title else session.title);
    session := session.(lastRunID := if s.runID != "" then s.runID else session.lastRunID);
    session := session.(lastStatus := if s.status != "" then s.status else session.lastStatus);
    if recovered > 0 || s.runID != "" || s.status != "" || s.title != "" {
      var _ := store.UpsertSession(session, true);
    }
  }

  method UpsertThread(store: Store, id: string, s: Snapshot, requested: string) returns (session: SessionRecord)
    requires id != "" && IsTrimmed(id)
    modifies store
    ensures session == Upserted(old(store.state), id, s, requested)
    ensures store.state == WithRecord(old(store.state), session)
  {
    var title := TrimSpace(requested);
    if title == "" {
      title := s.title;
    }
    session := RecordOf(store.state, id);
    session := session.(id := id);
    if title != "" {
      session := session.(title := title);
    }
    var saved := store.UpsertSession(session, true);
    session := saved.value;
  }

  method AppendTitle(store: Store, id: string, s: Snapshot, title: string) returns (recovered: nat)
    requires 0 <= store.state.sessionEventsMax && id != "" && IsTrimmed(id)
    modifies store
    ensures store.state == AppendAll(old(store.state), MissingTitle(s, title, id))
    ensures recovered == |MissingTitle(s, title, id)|
  {
    recovered := 0;
    if s.title != "" && s.title != title {
      var ok := AppendDirect(store, TitleEvent(id, s));
      if ok {
        recovered := recovered + 1;
      }
    }
  }

  method AppendText(store: Store, id: string, s: Snapshot, known: Summary) returns (recovered: nat)
    requires 0 <= store.state.sessionEventsMax && id != "" && IsTrimmed(id)
    modifies store
    ensures store.state == AppendAll(old(store.state), MissingText(s, known, id))
    ensures recovered == |MissingText(s, known, id)|
  {
    recovered := 0;
    if s.assistantText != "" && s.assistantText != known.assistantText {
      var ok := AppendDirect(store, TextEvent(id, s));
      if ok {
        recovered := recovered + 1;
      }
    }
  }

  method AppendTerminal(store: Store, id: string, s: Snapshot, known: Summary) returns (recovered: nat)
    requires 0 <= store.state.sessionEventsMax && id != "" && IsTrimmed(id)
    modifies store
    ensures store.state == AppendAll(old(store.state), MissingTerminal(s, known, id))
    ensures recovered == |MissingTerminal(s, known, id)|
  {
    recovered := 0;
    if s.status != "" && s.status != "running" && s.status != known.terminalState && TerminalKind(s.status) != "" {
      var ok := AppendDirect(store, TerminalEvent(id, s));
      if ok {
        recovered := recovered + 1;
      }
    }
  }

  method AppendMissing(store: Store, id: string, s: Snapshot, known: Summary, title: string) returns (recovered: nat)
    requires 0 <= store.state.sessionEventsMax && id != "" && IsTrimmed(id)
    modifies store
    ensures store.state == AppendAll(old(store.state), Missing(s, known, title, id))
    ensures recovered == |Missing(s, known, title, id)|
  {
    ghost var x, y, z := MissingTitle(s, title, id), MissingText(s, known, id), MissingTerminal(s, known, id);
    AppendAllConcat(store.state, x + y, z);
    AppendAllConcat(store.state, x, y);
    var titles := AppendTitle(store, id, s, title);
    var texts := AppendText(store, id, s, known);
    var terminals := AppendTerminal(store, id, s, known);
    recovered := titles + texts + terminals;
  }

  // ----- reading back what was appended -----

  lemma {:induction false} ReadConcat(a: Acc, x: seq<SessionEvent>, y: seq<SessionEvent>, runID: string)
    ensures ReadEvents(a, x + y, runID) == ReadEvents(ReadEvents(a, x, runID), y, runID)
    decreases |x|
  {
    if x == [] {
      assert x + y == y;
    } else {
      assert (x + y)[1..] == x[1..] + y;
      ReadConcat(ReadEvent(a, x[0], runID), x[1..], y, runID);
    }
  }

  /** An event ready to be appended to the session. */
  predicate Normal(e: SessionEvent, id: string) {
    e.sessionID == id && e.kind != "" && IsTrimmed(e.kind) && IsTrimmed(e.runID)
  }

  predicate AllNormal(events: seq<SessionEvent>, id: string) {
    forall i | 0 <= i < |events| :: Normal(events[i], id)
  }

  /** `stored` are the given events with sequence numbers filled in. */
  ghost predicate StoredAs(stored: seq<SessionEvent>, events: seq<SessionEvent>) {
    |stored| == |events| && forall i | 0 <= i < |events| :: stored[i] == events[i].(seqNo := stored[i].seqNo)
  }

  lemma {:induction false} ReadStored(a: Acc, stored: seq<SessionEvent>, events: seq<SessionEvent>, runID: string)
    requires StoredAs(stored, events)
    ensures ReadEvents(a, stored, runID) == ReadEvents(a, events, runID)
    decreases |events|
  {
    if events != [] {
      assert stored[0] == events[0].(seqNo := stored[0].seqNo);
      forall i | 0 <= i < |events| - 1 ensures stored[1..][i] == events[1..][i].(seqNo := stored[1..][i].seqNo) {
        assert stored[i + 1] == events[i + 1].(seqNo := stored[i + 1].seqNo);
      }
      ReadStored(ReadEvent(a, events[0], runID), stored[1..], events[1..], runID);
    }
  }

  lemma DropTwice<T>(s: seq<T>, first: nat, second: nat)
    requires first + second <= |s|
    ensures s[first..][second..] == s[first + second..]
  {
  }

  /** Dropping what the cap would drop anyway changes nothing. */
  lemma DropThenCap<T>(src: seq<T>, dropped: nat, max: nat)
    requires dropped <= |src| && (dropped == 0 || max <= |src| - dropped)
    ensures CapTail(src[dropped..], max) == CapTail(src, max)
  {
    if dropped > 0 { DropTwice(src, dropped, |src| - dropped - max); }
  }

  lemma DropFront<T>(src: seq<T>, dropped: nat, more: seq<T>)
    requires dropped <= |src|
    ensures src[dropped..] + more == (src + more)[dropped..]
  {
  }

  lemma CapFull<T>(src: seq<T>, dropped: nat, kept: seq<T>, more: seq<T>, max: nat)
    requires dropped + max == |src| && kept == src[dropped..]
    ensures CapTail(kept + more, max) == CapTail(src + more, max)
  {
    var all := src + more;
    DropFront(src, dropped, more);
    assert kept + more == all[dropped..];
    DropThenCap(all, dropped, max);
  }

  lemma CapAgain<T>(all: seq<T>, more: seq<T>, max: nat)
    ensures CapTail(CapTail(all, max) + more, max) == CapTail(all + more, max)
  {
    if |all| <= max {
      assert CapTail(all, max) == all;
    } else {
      CapFull(all, |all| - max, CapTail(all, max), more, max);
    }
  }

  lemma Associate<T>(a: seq<T>, b: seq<T>, c: seq<T>)
    ensures a + b + c == a + (b + c)
  {
  }

  /** Capping after every append is capping once at the end. */
  lemma CapTwice<T>(src: seq<T>, one: seq<T>, more: seq<T>, max: nat)
    ensures CapTail(CapTail(src + one, max) + more, max) == CapTail(src + (one + more), max)
  {
    CapAgain(src + one, more, max);
    Associate(src, one, more);
  }

  /** The events an append-all stores. */
  function StoredEvents(counter: int, events: seq<SessionEvent>): (stored: seq<SessionEvent>)
    ensures |stored| == |events|
  {
    seq(|events|, i requires 0 <= i < |events| => events[i].(seqNo := counter + 1 + i))
  }

  lemma AppendNormal(st: State, id: string, e: SessionEvent)
    requires 0 < st.sessionEventsMax && id != "" && Normal(e, id) && IsTrimmed(id)
    ensures var first := e.(seqNo := Counter(st, id) + 1);
            && AppendEvent(st, e).Ok?
            && AppendEvent(st, e).value.1 == first
            && AppendEvent(st, e).value.0.events == CapTail(st.events + [first], st.sessionEventsMax)
            && AppendEvent(st, e).value.0.sessionEventsMax == st.sessionEventsMax
            && Counter(AppendEvent(st, e).value.0, id) == Counter(st, id) + 1
  {
  }

  lemma StoredEventsStep(counter: int, events: seq<SessionEvent>)
    requires events != []
    ensures [events[0].(seqNo := counter + 1)] + StoredEvents(counter + 1, events[1..]) == StoredEvents(counter, events)
  {
  }

  function Appended(st: State, e: SessionEvent): State
    requires 0 <= st.sessionEventsMax && AppendEvent(st, e).Ok?
  {
    AppendEvent(st, e).value.0
  }

  lemma AppendAllStep(st: State, events: seq<SessionEvent>)
    requires 0 <= st.sessionEventsMax && events != [] && AppendEvent(st, events[0]).Ok?
    ensures AppendAll(st, events) == AppendAll(Appended(st, events[0]), events[1..])
  {
  }

  lemma CapSteps(src: seq<SessionEvent>, counter: int, events: seq<SessionEvent>, max: nat)
    requires events != []
    ensures CapTail(
              CapTail(src + [events[0].(seqNo := counter + 1)], max) + StoredEvents(counter + 1, events[1..]), max) ==
            CapTail(src + StoredEvents(counter, events), max)
  {
    CapTwice(src, [events[0].(seqNo := counter + 1)], StoredEvents(counter + 1, events[1..]), max);
    StoredEventsStep(counter, events);
  }

  /** The state after the append of a normal event. */
  ghost predicate Next(st: State, st1: State, id: string, e: SessionEvent) {
    && 0 < st.sessionEventsMax == st1.sessionEventsMax
    && st1.events == CapTail(st.events + [e.(seqNo := Counter(st, id) + 1)], st.sessionEventsMax)
    && Counter(st1, id) == Counter(st, id) + 1
  }

  lemma NormalNext(st: State, id: string, events: seq<SessionEvent>) returns (st1: State)
    requires 0 < st.sessionEventsMax && id != "" && IsTrimmed(id) && events != [] && AllNormal(events, id)
    ensures Next(st, st1, id, events[0]) && AppendAll(st, events) == AppendAll(st1, events[1..])
    ensures AllNormal(events[1..], id)
  {
    AppendNormal(st, id, events[0]);
    st1 := Appended(st, events[0]);
    AppendAllStep(st, events);
  }

  ghost predicate Stores(all: State, st: State, id: string, events: seq<SessionEvent>)
    requires 0 < st.sessionEventsMax
  {
    all.events == CapTail(st.events + StoredEvents(Counter(st, id), events), st.sessionEventsMax)
  }

  lemma StoresNext(all: State, st: State, st1: State, id: string, events: seq<SessionEvent>)
    requires 0 < st.sessionEventsMax && events != [] && Next(st, st1, id, events[0])
    requires Stores(all, st1, id, events[1..])
    ensures Stores(all, st, id, events)
  {
    CapSteps(st.events, Counter(st, id), events, st.sessionEventsMax);
  }

  lemma {:induction false} AppendAllStores(st: State, id: string, events: seq<SessionEvent>)
    requires 0 < st.sessionEventsMax && id != "" && IsTrimmed(id) && |st.events| <= st.sessionEventsMax
    requires AllNormal(events, id)
    ensures Stores(AppendAll(st, events), st, id, events)
    decreases |events|
  {
    if events == [] {
      assert st.events + [] == st.events;
    } else {
      var st1 := NormalNext(st, id, events);
      AppendAllStores(st1, id, events[1..]);
      StoresNext(AppendAll(st1, events[1..]), st, st1, id, events);
    }
  }

  lemma {:induction false} AppendAllKeepsValid(st: State, events: seq<SessionEvent>)
    requires Valid(st)
    ensures Valid(AppendAll(st, events))
    decreases |events|
  {
    if events != [] {
      if AppendEvent(st, events[0]).Ok? {
        AppendKeepsValid(st, events[0]);
        AppendAllKeepsValid(AppendEvent(st, events[0]).value.0, events[1..]);
      } else {
        AppendAllKeepsValid(st, events[1..]);
      }
    }
  }

  /** How many events of the whole log go when `n` more are appended. */
  function Displaced(st: State, n: nat): (k: nat)
    ensures k <= |st.events|
  {
    if |st.events| + n <= st.sessionEventsMax then 0
    else if n >= st.sessionEventsMax then |st.events|
    else |st.events| + n - st.sessionEventsMax
  }

  /** How many of the session's own events are among them. */
  function Evicted(st: State, id: string, n: nat): nat {
    |Of(st.events[..Displaced(st, n)], id)|
  }

  /** The session's events that are still there when `n` more have been appended. */
  function Kept(st: State, id: string, n: nat): seq<SessionEvent> {
    Of(st.events[Displaced(st, n)..], id)
  }

  /** Eviction takes the oldest of the session's events. */
  lemma KeptIsSuffix(st: State, id: string, n: nat)
    ensures Evicted(st, id, n) <= |Of(st.events, id)|
    ensures Kept(st, id, n) == Of(st.events, id)[Evicted(st, id, n)..]
  {
    var d := Displaced(st, n);
    assert st.events == st.events[..d] + st.events[d..];
    OfConcat(st.events[..d], st.events[d..], id);
  }

  lemma {:induction false} OfOwn(events: seq<SessionEvent>, id: string)
    requires forall i | 0 <= i < |events| :: events[i].sessionID == id
    ensures Of(events, id) == events
  {
    if events != [] {
      OfOwn(events[1..], id);
    }
  }

  lemma CapTailKeeps(st: State, stored: seq<SessionEvent>)
    requires |st.events| <= st.sessionEventsMax && |stored| <= st.sessionEventsMax
    ensures CapTail(st.events + stored, st.sessionEventsMax) == st.events[Displaced(st, |stored|)..] + stored
  {
  }

  lemma StoredAreOwn(counter: int, events: seq<SessionEvent>, id: string)
    requires AllNormal(events, id)
    ensures Of(StoredEvents(counter, events), id) == StoredEvents(counter, events)
  {
    var stored := StoredEvents(counter, events);
    forall i | 0 <= i < |stored| ensures stored[i].sessionID == id { assert Normal(events[i], id); }
    OfOwn(stored, id);
  }

  /** The session's events after an append-all: those that were kept, then the new ones. The records play no part
      in it. */
  lemma AppendAllGrows(st: State, st': State, id: string, events: seq<SessionEvent>)
    requires st'.events == st.events && st'.counters == st.counters && st'.sessionEventsMax == st.sessionEventsMax
    requires 0 < st.sessionEventsMax && id != "" && IsTrimmed(id) && |st.events| <= st.sessionEventsMax
    requires AllNormal(events, id) && |events| <= st.sessionEventsMax
    ensures Of(AppendAll(st', events).events, id) == Kept(st, id, |events|) + StoredEvents(Counter(st, id), events)
  {
    var stored := StoredEvents(Counter(st, id), events);
    AppendAllStores(st', id, events);
    CapTailKeeps(st, stored);
    OfConcat(st.events[Displaced(st, |stored|)..], stored, id);
    StoredAreOwn(Counter(st, id), events, id);
  }

  /** A scan reads the first events of the session. */
  lemma ScanIsPrefix(st: State, id: string)
    requires Valid(st) && id != "" && IsTrimmed(id)
    ensures var own := Of(st.events, id);
            ListEvents(st, id, 0, SCAN_LIMIT) == if |own| <= SCAN_LIMIT then own else own[..SCAN_LIMIT]
  {
    var own := Of(st.events, id);
    assert Block(st, id);
    PageOfOwn(st.events, id, 0, SCAN_LIMIT);
    OfOneSession(st.events, id);
    PageOfBlock(own, id, 0, SCAN_LIMIT, Counter(st, id));
  }

  /** The text event makes its text the summary's, and nothing else changes it afterwards. */
  lemma ReadText(a: Acc, id: string, s: Snapshot)
    requires WellFormed(s) && s.assistantText != ""
    ensures ReadEvent(a, TextEvent(id, s), s.runID) == Acc(s.assistantText, "", a.terminal)
  {
    var lines := [ItemCompleted("agent_message", TrimSpace(s.assistantText))];
    assert lines[1..] == [];
    assert ReadLines(a, lines) == ReadLine(a, lines[0]);
  }

  lemma ReadTitle(a: Acc, id: string, s: Snapshot)
    requires WellFormed(s)
    ensures ReadEvent(a, TitleEvent(id, s), s.runID) == a
  {
  }

  /** The log and the snapshot agree on everything a sync repairs. */
  predicate Agrees(known: Summary, s: Snapshot) {
    && (s.assistantText != "" ==> known.assistantText == s.assistantText)
    && (TerminalKind(s.status) != "" ==> known.terminalState == s.status)
  }

  lemma NothingMissingExactlyWhenAgreed(s: Snapshot, known: Summary, id: string)
    requires WellFormed(s)
    ensures MissingText(s, known, id) + MissingTerminal(s, known, id) == [] <==> Agrees(known, s)
  {
  }

  lemma ReadOne(a: Acc, e: SessionEvent, runID: string)
    ensures ReadEvents(a, [e], runID) == ReadEvent(a, e, runID)
  {
  }

  lemma ReadNothing(a: Acc, runID: string)
    ensures ReadEvents(a, [], runID) == a
  {
  }

  /** A title event leaves the summary alone. */
  lemma ReadMissingTitle(a: Acc, id: string, s: Snapshot, title: string)
    requires WellFormed(s)
    ensures ReadEvents(a, MissingTitle(s, title, id), s.runID) == a
  {
    ReadOne(a, TitleEvent(id, s), s.runID);
    ReadTitle(a, id, s);
    ReadNothing(a, s.runID);
  }

  lemma ReadMissingText(a: Acc, id: string, s: Snapshot, known: Summary)
    requires WellFormed(s)
    ensures ReadEvents(a, MissingText(s, known, id), s.runID) ==
            if MissingText(s, known, id) == [] then a else Acc(s.assistantText, "", a.terminal)
  {
    ReadNothing(a, s.runID);
    if s.assistantText != "" {
      ReadOne(a, TextEvent(id, s), s.runID);
      ReadText(a, id, s);
    }
  }

  lemma ReadMissingTerminal(a: Acc, id: string, s: Snapshot, known: Summary)
    requires WellFormed(s)
    ensures ReadEvents(a, MissingTerminal(s, known, id), s.runID) ==
            if MissingTerminal(s, known, id) == [] then a else a.(terminal := s.status)
  {
  }

  // ----- what one sync achieves -----

  lemma TextsAreNormal(s: Snapshot, id: string)
    requires WellFormed(s)
    ensures Normal(TitleEvent(id, s), id) && Normal(TextEvent(id, s), id)
  {
  }

  lemma TerminalIsNormal(s: Snapshot, id: string)
    requires WellFormed(s)
    ensures TerminalKind(s.status) != "" ==> Normal(TerminalEvent(id, s), id)
  {
  }

  lemma {:induction false} MissingIsNormal(s: Snapshot, known: Summary, title: string, id: string)
    requires WellFormed(s)
    ensures AllNormal(Missing(s, known, title, id), id)
  {
    TextsAreNormal(s, id);
    TerminalIsNormal(s, id);
  }

  /** What the session's summary is read from. */
  function Scanned(st: State, id: string): seq<SessionEvent> {
    ListEvents(st, id, 0, SCAN_LIMIT)
  }

  function Cut(own: seq<SessionEvent>): seq<SessionEvent> {
    if |own| <= SCAN_LIMIT then own else own[..SCAN_LIMIT]
  }

  lemma UpsertKeepsValid(st: State, r: SessionRecord)
    requires Valid(st)
    ensures Valid(WithRecord(st, r))
  {
    assert forall t: string | Block(st, t) :: Block(WithRecord(st, r), t);
  }

  /** A sync keeps the store valid. */
  lemma SyncKeepsValid(st: State, id: string, s: Snapshot, requested: string)
    requires Valid(st)
    ensures Valid(Sync(st, id, s, requested).0)
  {
    var r := Upserted(st, id, s, requested);
    UpsertKeepsValid(st, r);
    AppendAllKeepsValid(WithRecord(st, r), MissingFrom(st, id, s, requested));
    UpsertKeepsValid(AppendAll(WithRecord(st, r), MissingFrom(st, id, s, requested)), Settled(r, s));
  }

  lemma UpsertedGrows(st: State, r: SessionRecord, id: string, events: seq<SessionEvent>)
    requires 0 < st.sessionEventsMax && |st.events| <= st.sessionEventsMax && id != "" && IsTrimmed(id)
    requires AllNormal(events, id) && |events| <= st.sessionEventsMax
    ensures Of(AppendAll(WithRecord(st, r), events).events, id) ==
            Kept(st, id, |events|) + StoredEvents(Counter(st, id), events)
  {
    AppendAllGrows(st, WithRecord(st, r), id, events);
  }

  lemma SyncEvents(st: State, id: string, s: Snapshot, requested: string)
    requires 0 <= st.sessionEventsMax
    ensures Sync(st, id, s, requested).0.events ==
            AppendAll(WithRecord(st, Upserted(st, id, s, requested)), MissingFrom(st, id, s, requested)).events
  {
  }

  lemma MissingAreFew(st: State, id: string, s: Snapshot, requested: string)
    ensures |MissingFrom(st, id, s, requested)| <= 3
  {
  }

  /** A sync appends the missing events at the end of what is kept of the session's log. */
  lemma SyncAppends(st: State, id: string, s: Snapshot, requested: string)
    requires Valid(st) && id != "" && IsTrimmed(id) && WellFormed(s)
    ensures var missing := MissingFrom(st, id, s, requested);
            Of(Sync(st, id, s, requested).0.events, id) ==
            Kept(st, id, |missing|) + StoredEvents(Counter(st, id), missing)
  {
    var r := Upserted(st, id, s, requested);
    MissingIsNormal(s, SummaryOf(st, id, s.runID), r.title, id);
    MissingAreFew(st, id, s, requested);
    UpsertedGrows(st, r, id, MissingFrom(st, id, s, requested));
    SyncEvents(st, id, s, requested);
  }

  lemma StoredIsStoredAs(counter: int, events: seq<SessionEvent>, k: nat)
    requires k <= |events|
    ensures StoredAs(StoredEvents(counter, events)[..k], events[..k])
  {
  }

  /** How many of `more` events fit into the scan behind `own` events. */
  function Fit(own: nat, more: nat): (fit: nat)
    ensures fit <= more && (fit == more <==> more == 0 || own + more <= SCAN_LIMIT)
  {
    if own + more <= SCAN_LIMIT then more else if own >= SCAN_LIMIT then 0 else SCAN_LIMIT - own
  }

  /** What the next scan reads: the old scan, then as many of the missing events as still fit. */
  lemma NextScan(own: seq<SessionEvent>, stored: seq<SessionEvent>)
    ensures Cut(own + stored) == Cut(own) + stored[..Fit(|own|, |stored|)]
  {
  }

  lemma ReadNextScan(own: seq<SessionEvent>, counter: int, missing: seq<SessionEvent>, runID: string)
    ensures ReadEvents(NOTHING, Cut(own + StoredEvents(counter, missing)), runID) ==
            ReadEvents(ReadEvents(NOTHING, Cut(own), runID), missing[..Fit(|own|, |missing|)], runID)
  {
    var stored, fit, a := StoredEvents(counter, missing), Fit(|own|, |missing|), ReadEvents(NOTHING, Cut(own), runID);
    NextScan(own, stored);
    ReadConcat(NOTHING, Cut(own), stored[..fit], runID);
    StoredIsStoredAs(counter, missing, fit);
    ReadStored(a, stored[..fit], missing[..fit], runID);
  }

  lemma SummaryReadsCut(st: State, id: string, runID: string)
    requires Valid(st) && id != "" && IsTrimmed(id)
    ensures SummaryOf(st, id, runID) == Closing(ReadEvents(NOTHING, Cut(Of(st.events, id)), runID))
  {
    ScanIsPrefix(st, id);
  }

  /** The summary in the making after the events that a sync keeps. */
  function KeptAcc(st: State, id: string, s: Snapshot, n: nat): Acc {
    ReadEvents(NOTHING, Cut(Kept(st, id, n)), s.runID)
  }

  /** The summary after a sync is that of the kept events followed by the missing events that fit. */
  lemma SummaryAfterSync(st: State, id: string, s: Snapshot, requested: string)
    requires Valid(st) && id != "" && IsTrimmed(id) && WellFormed(s)
    ensures var missing := MissingFrom(st, id, s, requested);
            var fit := Fit(|Kept(st, id, |missing|)|, |missing|);
            SummaryOf(Sync(st, id, s, requested).0, id, s.runID) ==
            Closing(ReadEvents(KeptAcc(st, id, s, |missing|), missing[..fit], s.runID))
  {
    var missing := MissingFrom(st, id, s, requested);
    SyncAppends(st, id, s, requested);
    SyncKeepsValid(st, id, s, requested);
    SummaryReadsCut(Sync(st, id, s, requested).0, id, s.runID);
    ReadNextScan(Kept(st, id, |missing|), Counter(st, id), missing, s.runID);
  }

  /** What the first missing events make of a summary, text and terminal state apart. */
  lemma ReadFirst(a: Acc, id: string, s: Snapshot, known: Summary, title: string, k: nat)
    requires WellFormed(s) && k <= |Missing(s, known, title, id)|
    ensures var b := ReadEvents(a, Missing(s, known, title, id)[..k], s.runID);
            && (if MissingText(s, known, id) != [] && |MissingTitle(s, title, id)| < k
                then b.text == s.assistantText && b.deltas == ""
                else b.text == a.text && b.deltas == a.deltas)
            && b.terminal == if MissingTerminal(s, known, id) != [] && k == |Missing(s, known, title, id)|
                             then s.status else a.terminal
  {
    var x, y, z := MissingTitle(s, title, id), MissingText(s, known, id), MissingTerminal(s, known, id);
    var missing := Missing(s, known, title, id);
    ReadMissingTitle(a, id, s, title);
    ReadConcat(a, x, y, s.runID);
    ReadMissingText(a, id, s, known);
    ReadNothing(a, s.runID);
    if k < |x| {
      assert missing[..k] == [];
    } else if k < |x + y| {
      assert missing[..k] == x;
    } else if k == |x + y| {
      assert missing[..k] == x + y;
    } else {
      assert missing[..k] == x + y + z;
      ReadConcat(a, x + y, z, s.runID);
      ReadMissingTerminal(ReadEvents(a, y, s.runID), id, s, known);
    }
  }

  /** The snapshot's text is on the log after a sync: none is demanded, it is appended where the scan still
      reads it, or the kept events give it. */
  predicate TextHolds(st: State, id: string, s: Snapshot, requested: string) {
    var n := |MissingFrom(st, id, s, requested)|;
    || s.assistantText == ""
    || (&& s.assistantText != SummaryOf(st, id, s.runID).assistantText
        && |Kept(st, id, n)| + |MissingTitle(s, Upserted(st, id, s, requested).title, id)| < SCAN_LIMIT)
    || Closing(KeptAcc(st, id, s, n)).assistantText == s.assistantText
  }

  /** The same of its terminal state. */
  predicate TerminalHolds(st: State, id: string, s: Snapshot, requested: string) {
    var n := |MissingFrom(st, id, s, requested)|;
    || TerminalKind(s.status) == ""
    || (s.status != SummaryOf(st, id, s.runID).terminalState && |Kept(st, id, n)| + n <= SCAN_LIMIT)
    || KeptAcc(st, id, s, n).terminal == s.status
  }

  lemma FitCounts(own: nat, title: nat, n: nat)
    requires title < n
    ensures title < Fit(own, n) <==> own + title < SCAN_LIMIT
  {
  }

  lemma TextHoldsOnceRead(a: Acc, id: string, s: Snapshot, known: Summary, title: string, own: nat)
    requires WellFormed(s) && s.assistantText != ""
    ensures var missing := Missing(s, known, title, id);
            Closing(ReadEvents(a, missing[..Fit(own, |missing|)], s.runID)).assistantText == s.assistantText <==>
            || (s.assistantText != known.assistantText && own + |MissingTitle(s, title, id)| < SCAN_LIMIT)
            || Closing(a).assistantText == s.assistantText
  {
    var missing := Missing(s, known, title, id);
    ReadFirst(a, id, s, known, title, Fit(own, |missing|));
    if s.assistantText != known.assistantText {
      FitCounts(own, |MissingTitle(s, title, id)|, |missing|);
    }
  }

  lemma TerminalHoldsOnceRead(a: Acc, id: string, s: Snapshot, known: Summary, title: string, own: nat)
    requires WellFormed(s) && TerminalKind(s.status) != ""
    ensures var missing := Missing(s, known, title, id);
            ReadEvents(a, missing[..Fit(own, |missing|)], s.runID).terminal == s.status <==>
            || (s.status != known.terminalState && own + |missing| <= SCAN_LIMIT)
            || a.terminal == s.status
  {
    var missing := Missing(s, known, title, id);
    ReadFirst(a, id, s, known, title, Fit(own, |missing|));
  }

  /** After a sync the log agrees with the snapshot exactly when its text and its terminal state are each
      not demanded, appended within the scan, or still read from the events that making room has kept. */
  lemma SyncRepairsExactlyWhen(st: State, id: string, s: Snapshot, requested: string)
    requires Valid(st) && id != "" && IsTrimmed(id) && WellFormed(s)
    ensures Agrees(SummaryOf(Sync(st, id, s, requested).0, id, s.runID), s) <==>
            TextHolds(st, id, s, requested) && TerminalHolds(st, id, s, requested)
  {
    var n := |MissingFrom(st, id, s, requested)|;
    var known, title := SummaryOf(st, id, s.runID), Upserted(st, id, s, requested).title;
    var a, own := KeptAcc(st, id, s, n), |Kept(st, id, n)|;
    SummaryAfterSync(st, id, s, requested);
    if s.assistantText != "" { TextHoldsOnceRead(a, id, s, known, title, own); }
    if TerminalKind(s.status) != "" { TerminalHoldsOnceRead(a, id, s, known, title, own); }
  }

  /** Reading the missing events that fit makes the summary agree exactly when it did before or all fit. */
  lemma ReadFitting(a: Acc, id: string, s: Snapshot, title: string, own: nat)
    requires WellFormed(s)
    ensures var missing := Missing(s, Closing(a), title, id);
            Agrees(Closing(ReadEvents(a, missing[..Fit(own, |missing|)], s.runID)), s) <==>
            Agrees(Closing(a), s) || own + |missing| <= SCAN_LIMIT
  {
    var missing := Missing(s, Closing(a), title, id);
    NothingMissingExactlyWhenAgreed(s, Closing(a), id);
    ReadFirst(a, id, s, Closing(a), title, Fit(own, |missing|));
  }

  /** When making room takes none of the session's own events, that is: when it agreed before, or the
      repaired log fits the scan. */
  lemma SparedRepairsExactlyWhenItFits(st: State, id: string, s: Snapshot, requested: string)
    requires Valid(st) && id != "" && IsTrimmed(id) && WellFormed(s)
    requires Evicted(st, id, |MissingFrom(st, id, s, requested)|) == 0
    ensures TextHolds(st, id, s, requested) && TerminalHolds(st, id, s, requested) <==>
            || Agrees(SummaryOf(st, id, s.runID), s)
            || |Of(st.events, id)| + |MissingFrom(st, id, s, requested)| <= SCAN_LIMIT
  {
    var n := |MissingFrom(st, id, s, requested)|;
    KeptIsSuffix(st, id, n);
    ScanIsPrefix(st, id);
    assert KeptAcc(st, id, s, n) == ReadEvents(NOTHING, Scanned(st, id), s.runID);
    SyncRepairsExactlyWhen(st, id, s, requested);
    SummaryAfterSync(st, id, s, requested);
    ReadFitting(KeptAcc(st, id, s, n), id, s, Upserted(st, id, s, requested).title, |Kept(st, id, n)|);
  }

  /** No title override, or one that repeats the snapshot's title. */
  predicate TitleSettled(s: Snapshot, requested: string) {
    s.title == "" || TrimSpace(requested) == "" || TrimSpace(requested) == s.title
  }

  lemma TitleMissingExactlyWhenUnsettled(st: State, id: string, s: Snapshot, requested: string)
    requires WellFormed(s)
    ensures MissingTitle(s, Upserted(st, id, s, requested).title, id) == [] <==> TitleSettled(s, requested)
  {
  }

  lemma SyncCountsMissing(st: State, id: string, s: Snapshot, requested: string)
    requires 0 <= st.sessionEventsMax && WellFormed(s)
    ensures Sync(st, id, s, requested).1 == 0 <==> TitleSettled(s, requested) && Agrees(SummaryOf(st, id, s.runID), s)
  {
    TitleMissingExactlyWhenUnsettled(st, id, s, requested);
    NothingMissingExactlyWhenAgreed(s, SummaryOf(st, id, s.runID), id);
  }

  /** A second sync with the same snapshot and request appends nothing exactly when the title is settled
      and the first sync's repair of text and terminal state holds. */
  lemma SecondSyncIsQuietExactlyWhen(st: State, id: string, s: Snapshot, requested: string)
    requires Valid(st) && id != "" && IsTrimmed(id) && WellFormed(s)
    ensures Sync(Sync(st, id, s, requested).0, id, s, requested).1 == 0 <==>
            && TitleSettled(s, requested)
            && TextHolds(st, id, s, requested) && TerminalHolds(st, id, s, requested)
  {
    SyncKeepsValid(st, id, s, requested);
    SyncRepairsExactlyWhen(st, id, s, requested);
    SyncCountsMissing(Sync(st, id, s, requested).0, id, s, requested);
  }

  // ----- a full log: making room for the repair evicts what was repaired -----

  const SAID := SessionEvent("s", "r", 1, "assistant.delta", Chunk([ItemCompleted("message", "hi")]))

  function Others(n: nat): seq<SessionEvent> {
    seq(n, i requires 0 <= i < n => SessionEvent("o", "", i + 1, "x", OtherPayload("")))
  }

  const FULL := State([SAID] + Others(99), map["s" := 1, "o" := 99], [], 100)
  const FINISHED := Snapshot("", "r", "succeeded", "hi")

  lemma FullOwn(id: string)
    ensures Of(Others(99), id) == if id == "o" then Others(99) else []
    ensures Of(FULL.events, id) == (if id == "s" then [SAID] else []) + Of(Others(99), id)
  {
    if id == "o" { OfOwn(Others(99), id); } else { OfNone(Others(99), id); }
    OfConcat([SAID], Others(99), id);
    assert Of([SAID], id) == if id == "s" then [SAID] else [];
  }

  lemma {:induction false} OfNone(events: seq<SessionEvent>, id: string)
    requires forall i | 0 <= i < |events| :: events[i].sessionID != id
    ensures Of(events, id) == []
  {
    if events != [] {
      OfNone(events[1..], id);
    }
  }

  lemma FullBlock(id: string)
    ensures Block(FULL, id)
  {
    FullOwn(id);
    assert id == "s" ==> Of(FULL.events, id) == [SAID] + [] == [SAID];
    assert id == "o" ==> Of(FULL.events, id) == [] + Others(99) == Others(99);
    assert id != "s" && id != "o" ==> Of(FULL.events, id) == [] + [] == [];
  }

  lemma FullIsNamed()
    ensures AllNamed(FULL.events) && |FULL.events| == 100
  {
    assert forall i | 0 <= i < 99 :: Named(Others(99)[i]);
  }

  lemma FullIsValid()
    ensures Valid(FULL)
  {
    forall id: string ensures Block(FULL, id) { FullBlock(id); }
    FullIsNamed();
  }

  lemma ReadSaid()
    ensures ReadEvents(NOTHING, [SAID], "r") == Acc("hi", "", "")
  {
    ReadOne(NOTHING, SAID, "r");
    var lines := [ItemCompleted("message", "hi")];
    assert lines[1..] == [];
    assert ReadLines(NOTHING, lines) == ReadLine(NOTHING, lines[0]);
  }

  lemma FullSummary()
    ensures SummaryOf(FULL, "s", "r") == Summary("hi", "")
  {
    FullIsValid();
    FullOwn("s");
    ScanIsPrefix(FULL, "s");
    ReadSaid();
    assert [SAID] + [] == [SAID];
  }

  lemma FullMissing()
    ensures |MissingFrom(FULL, "s", FINISHED, "")| == 1
  {
    FullSummary();
  }

  lemma FullKept()
    ensures Kept(FULL, "s", 1) == []
  {
    FullOwn("s");
    assert FULL.events[1..] == Others(99);
  }

  lemma FullTextIsLost()
    ensures !TextHolds(FULL, "s", FINISHED, "")
  {
    FullSummary();
    FullMissing();
    FullKept();
    ReadNothing(NOTHING, "r");
  }

  lemma FinishedIsWellFormed()
    ensures WellFormed(FINISHED) && TitleSettled(FINISHED, "") && FINISHED.runID == "r"
            && FINISHED.assistantText == "hi"
  {
  }

  lemma LostTextIsMissedAgain(st: State, id: string, s: Snapshot, requested: string)
    requires Valid(st) && id != "" && IsTrimmed(id) && WellFormed(s) && !TextHolds(st, id, s, requested)
    ensures !Agrees(SummaryOf(Sync(st, id, s, requested).0, id, s.runID), s)
    ensures Sync(Sync(st, id, s, requested).0, id, s, requested).1 != 0
  {
    SyncRepairsExactlyWhen(st, id, s, requested);
    SecondSyncIsQuietExactlyWhen(st, id, s, requested);
  }

  /** The log is full and its oldest event holds the text that agrees. Appending the missing terminal event
      evicts it: the log disagrees afterwards, and a second sync has something to append. */
  lemma FullLogLosesItsText()
    ensures Valid(FULL) && WellFormed(FINISHED) && TitleSettled(FINISHED, "")
    ensures SummaryOf(FULL, "s", FINISHED.runID).assistantText == FINISHED.assistantText
    ensures !Agrees(SummaryOf(Sync(FULL, "s", FINISHED, "").0, "s", FINISHED.runID), FINISHED)
    ensures Sync(Sync(FULL, "s", FINISHED, "").0, "s", FINISHED, "").1 != 0
  {
    FullIsValid();
    FullSummary();
    FinishedIsWellFormed();
    FullTextIsLost();
    LostTextIsMissedAgain(FULL, "s", FINISHED, "");
  }
}
