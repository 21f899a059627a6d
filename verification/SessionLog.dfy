/** The session event log of the store: per-session sequence numbers, one retention cap over all
    sessions, deletion, and a state file that is replaced as a whole and read back on restart. */
module SessionLog {
  import opened Wrappers
  import opened Text

  /** One line of an assistant chunk after JSON decoding. */
  datatype ChunkLine =
    | AgentDelta(delta: string)
    | ItemCompleted(itemType: string, text: string)
    | OtherLine

  /** An event payload after JSON decoding: the lines of its chunk, or anything else. */
  datatype Payload = Chunk(lines: seq<ChunkLine>) | OtherPayload(raw: string)

  datatype SessionEvent = SessionEvent(sessionID: string, runID: string, seqNo: int, kind: string, payload: Payload)

  datatype SessionRecord = SessionRecord(id: string, title: string, lastRunID: string, lastStatus: string)

  datatype State = State(
    events: seq<SessionEvent>,
    counters: map<string, int>,
    sessions: seq<SessionRecord>,
    sessionEventsMax: int)

  /** What a restart finds at the store's path. */
  datatype File = Missing | Empty | Corrupt | Saved(state: State)

  datatype StoreError = SessionIDRequired | TypeRequired | SaveFailed | DecodeFailed

  const DEFAULT_SESSION_EVENTS_MAX := 20000
  const MAX_RETENTION_LIMIT := 50000

  const DEFAULT_STATE := State([], map[], [], DEFAULT_SESSION_EVENTS_MAX)

  // ----- the values the operations compute -----

  function CapTail<T>(src: seq<T>, max: nat): (kept: seq<T>)
    ensures |kept| == (if |src| <= max then |src| else max) && kept == src[|src| - |kept|..]
  {
    if |src| <= max then src else src[|src| - max..]
  }

  function NormalizeRetentionLimit(v: int, fallback: int): (limit: nat)
    ensures 100 <= limit <= MAX_RETENTION_LIMIT
    ensures 100 <= v <= MAX_RETENTION_LIMIT ==> limit == v
    ensures (0 < v < 100 ==> limit == 100) && (v > MAX_RETENTION_LIMIT ==> limit == MAX_RETENTION_LIMIT)
    ensures v <= 0 ==> limit == if fallback < 100 then 100
                                else if fallback > MAX_RETENTION_LIMIT then MAX_RETENTION_LIMIT else fallback
  {
    var w := if v <= 0 then fallback else v;
    if w < 100 then 100 else if w > MAX_RETENTION_LIMIT then MAX_RETENTION_LIMIT else w
  }

  function Get(counters: map<string, int>, sessionID: string): int {
    if sessionID in counters then counters[sessionID] else 0
  }

  function Counter(st: State, sessionID: string): int {
    Get(st.counters, sessionID)
  }

  /** The retained events of one session, in log order. */
  function Of(events: seq<SessionEvent>, sessionID: string): (own: seq<SessionEvent>)
    ensures |own| <= |events|
  {
    if events == [] then []
    else if events[0].sessionID == sessionID then [events[0]] + Of(events[1..], sessionID)
    else Of(events[1..], sessionID)
  }

  function Without(events: seq<SessionEvent>, sessionID: string): (kept: seq<SessionEvent>)
    ensures |kept| <= |events|
  {
    if events == [] then []
    else if TrimSpace(events[0].sessionID) != sessionID then [events[0]] + Without(events[1..], sessionID)
    else Without(events[1..], sessionID)
  }

  /** The event as stored, and the state after storing it; or why it is refused. */
  function AppendEvent(st: State, event: SessionEvent): Result<(State, SessionEvent), StoreError>
    requires 0 <= st.sessionEventsMax
  {
    var sessionID := TrimSpace(event.sessionID);
    var kind := TrimSpace(event.kind);
    if sessionID == "" then Err(SessionIDRequired)
    else if kind == "" then Err(TypeRequired)
    else
      var next := Counter(st, sessionID) + 1;
      var stored := SessionEvent(sessionID, TrimSpace(event.runID), next, kind, event.payload);
      Ok((st.(counters := st.counters[sessionID := next],
              events := CapTail(st.events + [stored], st.sessionEventsMax)), stored))
  }

  predicate HasSession(st: State, id: string) {
    exists r :: r in st.sessions && r.id == id
  }

  /** Removes the first record with this id. */
  function RemoveRecord(sessions: seq<SessionRecord>, id: string): seq<SessionRecord> {
    if sessions == [] then []
    else if sessions[0].id == id then sessions[1..]
    else [sessions[0]] + RemoveRecord(sessions[1..], id)
  }

  /** The state after deleting a session that exists. */
  function DeleteFrom(st: State, id: string): State {
    st.(sessions := RemoveRecord(st.sessions, id),
        counters := st.counters - {id},
        events := Without(st.events, id))
  }

  function WithRetention(st: State, limit: int): State {
    var max := NormalizeRetentionLimit(limit, DEFAULT_SESSION_EVENTS_MAX);
    st.(sessionEventsMax := max, events := CapTail(st.events, max))
  }

  /** Up to `limit` events of the session above the cursor, oldest first. */
  function Page(events: seq<SessionEvent>, sessionID: string, after: int, limit: nat): (page: seq<SessionEvent>)
    ensures |page| <= limit
  {
    if events == [] || limit == 0 then []
    else if events[0].sessionID == sessionID && after < events[0].seqNo then
      [events[0]] + Page(events[1..], sessionID, after, limit - 1)
    else Page(events[1..], sessionID, after, limit)
  }

  function PageLimit(limit: int): (n: nat)
    ensures (0 < limit <= 2000 ==> n == limit) && (limit <= 0 ==> n == 200) && (limit > 2000 ==> n == 2000)
  {
    if limit <= 0 then 200 else if limit > 2000 then 2000 else limit
  }

  function ListEvents(st: State, sessionID: string, after: int, limit: int): seq<SessionEvent> {
    var id := TrimSpace(sessionID);
    if id == "" then [] else Page(st.events, id, after, PageLimit(limit))
  }

  /** Raises each counter to the sequence numbers found among the events. */
  function Raise(counters: map<string, int>, events: seq<SessionEvent>): map<string, int>
    decreases |events|
  {
    if events == [] then counters else Raise(RaiseOne(counters, events[0]), events[1..])
  }

  function RaiseOne(counters: map<string, int>, e: SessionEvent): map<string, int> {
    var id := TrimSpace(e.sessionID);
    if e.seqNo <= 0 || id == "" || e.seqNo <= Get(counters, id) then counters else counters[id := e.seqNo]
  }

  /** The state a restart rebuilds from a decoded file. */
  function Loaded(st: State): State {
    var capped := WithRetention(st, st.sessionEventsMax);
    capped.(counters := Raise(capped.counters, capped.events))
  }

  // ----- what every reachable state satisfies -----

  /** A block of consecutive sequence numbers that ends at the counter. */
  ghost predicate EndsAt(own: seq<SessionEvent>, counter: int) {
    |own| <= counter && forall i | 0 <= i < |own| :: own[i].seqNo == counter - |own| + 1 + i
  }

  predicate AllNamed(events: seq<SessionEvent>) {
    forall i | 0 <= i < |events| :: Named(events[i])
  }

  predicate Named(e: SessionEvent) {
    e.sessionID != "" && IsTrimmed(e.sessionID)
  }

  ghost predicate Block(st: State, s: string) {
    EndsAt(Of(st.events, s), Counter(st, s))
  }

  ghost predicate Valid(st: State) {
    && 100 <= st.sessionEventsMax <= MAX_RETENTION_LIMIT
    && |st.events| <= st.sessionEventsMax
    && AllNamed(st.events)
    && forall s: string :: Block(st, s)
  }

  lemma {:induction false} OfConcat(a: seq<SessionEvent>, b: seq<SessionEvent>, s: string)
    ensures Of(a + b, s) == Of(a, s) + Of(b, s)
  {
    if a == [] {
      assert a + b == b;
    } else {
      assert (a + b)[1..] == a[1..] + b;
      OfConcat(a[1..], b, s);
    }
  }

  lemma {:induction false} OfMember(events: seq<SessionEvent>, e: SessionEvent)
    requires e in events
    ensures e in Of(events, e.sessionID)
  {
    if e != events[0] {
      OfMember(events[1..], e);
    }
  }

  /** Dropping a global prefix drops a prefix of every session. */
  lemma OfCapTail(events: seq<SessionEvent>, max: nat, s: string)
    ensures var own, kept := Of(events, s), Of(CapTail(events, max), s);
            |kept| <= |own| && kept == own[|own| - |kept|..]
  {
    var n := |events| - |CapTail(events, max)|;
    assert events == events[..n] + events[n..];
    OfConcat(events[..n], events[n..], s);
  }

  lemma {:induction false} OfWithout(events: seq<SessionEvent>, id: string, s: string)
    requires AllNamed(events)
    ensures AllNamed(Without(events, id))
    ensures Of(Without(events, id), s) == if s == id then [] else Of(events, s)
  {
    if events != [] {
      assert Named(events[0]);
      OfWithout(events[1..], id, s);
    }
  }

  lemma CapTailKeepsBlocks(st: State, st': State, max: nat)
    requires forall s: string :: Block(st, s)
    requires st'.counters == st.counters && st'.events == CapTail(st.events, max)
    ensures forall s: string :: Block(st', s)
  {
    forall s: string ensures Block(st', s) {
      OfCapTail(st.events, max, s);
      assert Block(st, s);
    }
  }

  /** The state right before the retention cap is applied. */
  function Grown(st: State, stored: SessionEvent): State {
    st.(counters := st.counters[stored.sessionID := stored.seqNo], events := st.events + [stored])
  }

  lemma GrownBlock(st: State, stored: SessionEvent, s: string)
    requires Block(st, s) && (s == stored.sessionID ==> stored.seqNo == Counter(st, s) + 1)
    ensures Block(Grown(st, stored), s)
  {
    OfConcat(st.events, [stored], s);
  }

  /** Appending hands out the next number, stores the event last, and keeps every block. */
  lemma AppendKeepsValid(st: State, event: SessionEvent)
    requires Valid(st) && AppendEvent(st, event).Ok?
    ensures var (st', stored) := AppendEvent(st, event).value;
            && Valid(st')
            && stored.seqNo == Counter(st, stored.sessionID) + 1 == Counter(st', stored.sessionID)
            && st'.events[|st'.events| - 1] == stored
            && forall s: string | s != stored.sessionID :: Counter(st', s) == Counter(st, s)
  {
    var (st', stored) := AppendEvent(st, event).value;
    var grown := Grown(st, stored);
    forall s: string ensures Block(grown, s) {
      assert Block(st, s);
      GrownBlock(st, stored, s);
    }
    CapTailKeepsBlocks(grown, st', st.sessionEventsMax);
    assert forall i | 0 <= i < |grown.events| :: Named(grown.events[i]);
  }

  /** Deleting forgets exactly the deleted session. */
  lemma DeleteKeepsValid(st: State, id: string)
    requires Valid(st)
    ensures Valid(DeleteFrom(st, id))
    ensures Counter(DeleteFrom(st, id), id) == 0 && Of(DeleteFrom(st, id).events, id) == []
    ensures forall s: string | s != id ::
              Counter(DeleteFrom(st, id), s) == Counter(st, s) && Of(DeleteFrom(st, id).events, s) == Of(st.events, s)
  {
    var st' := DeleteFrom(st, id);
    OfWithout(st.events, id, id);
    forall s: string
      ensures Block(st', s)
      ensures s != id ==> Of(st'.events, s) == Of(st.events, s)
      ensures Of(st'.events, id) == []
    {
      OfWithout(st.events, id, s);
      assert Block(st, s);
    }
  }

  lemma RetentionKeepsValid(st: State, limit: int)
    requires Valid(st)
    ensures Valid(WithRetention(st, limit))
  {
    CapTailKeepsBlocks(st, WithRetention(st, limit), NormalizeRetentionLimit(limit, DEFAULT_SESSION_EVENTS_MAX));
  }

  /** Counters that already cover the events are left alone. */
  lemma {:induction false} RaiseCovered(counters: map<string, int>, events: seq<SessionEvent>)
    requires forall i | 0 <= i < |events| :: events[i].seqNo <= Get(counters, TrimSpace(events[i].sessionID))
    ensures Raise(counters, events) == counters
  {
    if events != [] {
      RaiseCovered(counters, events[1..]);
    }
  }

  /** A saved reachable state is read back unchanged. */
  lemma LoadRestores(st: State)
    requires Valid(st)
    ensures Loaded(st) == st
  {
    forall i | 0 <= i < |st.events|
      ensures st.events[i].seqNo <= Get(st.counters, TrimSpace(st.events[i].sessionID))
    {
      var e := st.events[i];
      assert Named(e);
      OfMember(st.events, e);
      assert Block(st, e.sessionID);
    }
    RaiseCovered(st.counters, st.events);
  }

  function Highest(own: seq<SessionEvent>, floor: int): int {
    if own == [] then floor
    else Highest(own[1..], if floor < own[0].seqNo then own[0].seqNo else floor)
  }

  /** Reading a log raises a counter to the highest number of its session. */
  lemma {:induction false} RaiseIsHighest(counters: map<string, int>, events: seq<SessionEvent>, s: string)
    requires AllNamed(events) && 0 <= Get(counters, s)
    ensures Get(Raise(counters, events), s) == Highest(Of(events, s), Get(counters, s))
    decreases |events|
  {
    if events != [] {
      assert Named(events[0]);
      RaiseIsHighest(RaiseOne(counters, events[0]), events[1..], s);
      assert events[0].sessionID == s ==> Of(events, s)[0] == events[0] && Of(events, s)[1..] == Of(events[1..], s);
    }
  }

  lemma {:induction false} HighestOfBlock(own: seq<SessionEvent>, floor: int, c: int)
    requires EndsAt(own, c)
    ensures Highest(own, floor) == if own == [] || c <= floor then floor else c
  {
    if own != [] {
      HighestOfBlock(own[1..], if floor < own[0].seqNo then own[0].seqNo else floor, c);
    }
  }

  /** The retained events are a block, and the counter is anywhere up to its end. */
  ghost predicate Lags(st: State, s: string) {
    var own := Of(st.events, s);
    && 0 <= Counter(st, s)
    && (own != [] ==> Counter(st, s) <= own[|own| - 1].seqNo && EndsAt(own, own[|own| - 1].seqNo))
  }

  /** A file whose counters are missing or lag behind its events (older files have none) loads into a
      valid state. */
  lemma LoadRebuildsCounters(st: State)
    requires AllNamed(st.events)
    requires forall s: string :: Lags(st, s)
    ensures Valid(Loaded(st))
  {
    var max := NormalizeRetentionLimit(st.sessionEventsMax, DEFAULT_SESSION_EVENTS_MAX);
    var kept := CapTail(st.events, max);
    forall s: string ensures Block(Loaded(st), s) {
      OfCapTail(st.events, max, s);
      assert Lags(st, s);
      RaiseIsHighest(st.counters, kept, s);
      var own := Of(kept, s);
      if own != [] { HighestOfBlock(own, Counter(st, s), own[|own| - 1].seqNo); }
    }
  }

  lemma WithoutStep(events: seq<SessionEvent>, i: nat, id: string)
    requires i < |events|
    ensures Without(events[i..], id) ==
            (if TrimSpace(events[i].sessionID) != id then [events[i]] else []) + Without(events[i + 1..], id)
  {
    assert events[i..][1..] == events[i + 1..];
  }

  lemma Regroup<T>(a: seq<T>, b: seq<T>, c: seq<T>)
    ensures a + (b + c) == a + b + c
  {
  }

  /** One step of a loop that collects the events of other sessions. */
  lemma KeepStep(kept: seq<SessionEvent>, events: seq<SessionEvent>, i: nat, id: string)
    requires i < |events|
    ensures kept + Without(events[i..], id) ==
            (if TrimSpace(events[i].sessionID) != id then kept + [events[i]] else kept) + Without(events[i + 1..], id)
  {
    WithoutStep(events, i, id);
    if TrimSpace(events[i].sessionID) != id { Regroup(kept, [events[i]], Without(events[i + 1..], id)); }
  }

  lemma PageStep(events: seq<SessionEvent>, i: nat, s: string, after: int, limit: nat)
    requires i < |events| && 0 < limit
    ensures Page(events[i..], s, after, limit) ==
            if events[i].sessionID == s && after < events[i].seqNo
              then [events[i]] + Page(events[i + 1..], s, after, limit - 1)
            else Page(events[i + 1..], s, after, limit)
  {
  }

  /** Other sessions' events do not matter to a page. */
  lemma {:induction false} PageOfOwn(events: seq<SessionEvent>, s: string, after: int, limit: nat)
    ensures Page(events, s, after, limit) == Page(Of(events, s), s, after, limit)
  {
    if events != [] {
      PageOfOwn(events[1..], s, after, limit);
      if events[0].sessionID == s {
        assert Of(events, s) == [events[0]] + Of(events[1..], s);
        assert Of(events, s)[1..] == Of(events[1..], s);
        if limit > 0 { PageOfOwn(events[1..], s, after, limit - 1); }
      }
    }
  }

  /** How many of the `n` numbers ending at `c` are not above the cursor. */
  function Passed(n: nat, after: int, c: int): (k: nat)
    ensures k <= n
  {
    if after <= c - n then 0 else if after >= c then n else after - (c - n)
  }

  function Least(a: nat, b: nat): nat {
    if a <= b then a else b
  }

  /** The slice that a page of the block is. */
  function BlockSlice(own: seq<SessionEvent>, after: int, limit: nat, c: int): seq<SessionEvent> {
    var from := Passed(|own|, after, c);
    own[from..Least(from + limit, |own|)]
  }

  lemma TailSlice<T>(q: seq<T>, i: nat, j: nat)
    requires i <= j < |q|
    ensures q[1..][i..j] == q[i + 1..j + 1]
  {
  }

  lemma SliceTakes(own: seq<SessionEvent>, after: int, limit: nat, c: int)
    requires own != [] && limit > 0 && after <= c - |own|
    ensures BlockSlice(own, after, limit, c) == [own[0]] + BlockSlice(own[1..], after, limit - 1, c)
  {
  }

  lemma SliceSkips(own: seq<SessionEvent>, after: int, limit: nat, c: int)
    requires own != [] && c - |own| < after
    ensures BlockSlice(own, after, limit, c) == BlockSlice(own[1..], after, limit, c)
  {
    var from := Passed(|own| - 1, after, c);
    TailSlice(own, from, Least(from + limit, |own| - 1));
  }

  /** A page of one session's block is a slice of the block. */
  lemma {:induction false} PageOfBlock(own: seq<SessionEvent>, s: string, after: int, limit: nat, c: int)
    requires EndsAt(own, c) && forall i | 0 <= i < |own| :: own[i].sessionID == s
    ensures Page(own, s, after, limit) == BlockSlice(own, after, limit, c)
  {
    if own != [] && limit > 0 {
      if after < own[0].seqNo {
        PageOfBlock(own[1..], s, after, limit - 1, c);
        SliceTakes(own, after, limit, c);
      } else {
        PageOfBlock(own[1..], s, after, limit, c);
        SliceSkips(own, after, limit, c);
      }
    }
  }

  lemma {:induction false} OfOneSession(events: seq<SessionEvent>, s: string)
    ensures forall i | 0 <= i < |Of(events, s)| :: Of(events, s)[i].sessionID == s
  {
    if events != [] { OfOneSession(events[1..], s); }
  }

  /** When nothing above the cursor has been evicted, a page is the run of numbers right above the
      cursor, and it is cut short only by the limit or by the end of the log. */
  lemma PageFollowsCursor(st: State, s: string, after: int, limit: nat)
    requires Valid(st) && Counter(st, s) - |Of(st.events, s)| <= after <= Counter(st, s)
    ensures var page := Page(st.events, s, after, limit);
            && (forall i | 0 <= i < |page| :: page[i].seqNo == after + 1 + i)
            && |page| == if Counter(st, s) - after <= limit then Counter(st, s) - after else limit
  {
    assert Block(st, s);
    PageOfOwn(st.events, s, after, limit);
    OfOneSession(st.events, s);
    PageOfBlock(Of(st.events, s), s, after, limit, Counter(st, s));
  }

  // ----- every run of the store, with failing saves and restarts -----

  datatype Op =
    | Append(event: SessionEvent, saved: bool)
    | Delete(id: string, saved: bool)
    | SetRetention(limit: int, saved: bool)
    | Upsert(record: SessionRecord, saved: bool)
    | Restart

  /** The store in memory, its file, and per session the numbers that successful appends have returned
      since the session was last deleted. */
  datatype World = World(mem: State, disk: State, issued: map<string, set<int>>)

  function Issued(issued: map<string, set<int>>, s: string): set<int> {
    if s in issued then issued[s] else {}
  }

  function Commit(w: World, mem: State, saved: bool): World {
    w.(mem := mem, disk := if saved then mem else w.disk)
  }

  function TrimRecord(r: SessionRecord): SessionRecord {
    SessionRecord(TrimSpace(r.id), TrimSpace(r.title), TrimSpace(r.lastRunID), TrimSpace(r.lastStatus))
  }

  /** Replaces the record with the same id, or adds one at the end. */
  function PutRecord(sessions: seq<SessionRecord>, r: SessionRecord): seq<SessionRecord> {
    if sessions == [] then [r]
    else if sessions[0].id == r.id then [r] + sessions[1..]
    else [sessions[0]] + PutRecord(sessions[1..], r)
  }

  lemma {:induction false} PutRecordAt(sessions: seq<SessionRecord>, r: SessionRecord, i: nat)
    requires i <= |sessions| && forall k | 0 <= k < i :: sessions[k].id != r.id
    requires i < |sessions| ==> sessions[i].id == r.id
    ensures PutRecord(sessions, r) == if i < |sessions| then sessions[i := r] else sessions + [r]
  {
    if i > 0 {
      PutRecordAt(sessions[1..], r, i - 1);
      assert sessions == [sessions[0]] + sessions[1..];
    }
  }

  function Step(w: World, op: Op): World
    requires Valid(w.mem)
  {
    match op
    case Append(event, saved) =>
      (match AppendEvent(w.mem, event)
       case Err(_) => w
       case Ok((st, stored)) =>
         var w' := Commit(w, st, saved);
         if saved then w'.(issued := w.issued[stored.sessionID := Issued(w.issued, stored.sessionID) + {stored.seqNo}])
         else w')
    case Delete(id, saved) =>
      var key := TrimSpace(id);
      if key == "" || !HasSession(w.mem, key) then w
      else Commit(w, DeleteFrom(w.mem, key), saved).(issued := w.issued[key := {}])
    case SetRetention(limit, saved) => Commit(w, WithRetention(w.mem, limit), saved)
    case Upsert(record, saved) =>
      var r := TrimRecord(record);
      if r.id == "" then w else Commit(w, w.mem.(sessions := PutRecord(w.mem.sessions, r)), saved)
    case Restart => w.(mem := Loaded(w.disk))
  }

  /** Neither memory nor the file has fallen behind the numbers already returned. */
  ghost predicate Covered(w: World, s: string) {
    forall n | n in Issued(w.issued, s) :: 1 <= n <= Counter(w.mem, s) && n <= Counter(w.disk, s)
  }

  ghost predicate Inv(w: World) {
    && Valid(w.mem) && Valid(w.disk)
    && forall s: string :: Covered(w, s)
  }

  lemma StepKeepsValid(w: World, op: Op)
    requires Valid(w.mem) && Valid(w.disk)
    ensures Valid(Step(w, op).mem) && Valid(Step(w, op).disk)
  {
    match op
    case Append(event, saved) => if AppendEvent(w.mem, event).Ok? { AppendKeepsValid(w.mem, event); }
    case Delete(id, saved) => DeleteKeepsValid(w.mem, TrimSpace(id));
    case SetRetention(limit, saved) => RetentionKeepsValid(w.mem, limit);
    case Upsert(record, saved) => assert forall s: string | Block(w.mem, s) :: Block(Step(w, op).mem, s);
    case Restart => LoadRestores(w.disk);
  }

  lemma AppendCovers(w: World, event: SessionEvent, saved: bool, s: string)
    requires Inv(w) && AppendEvent(w.mem, event).Ok?
    ensures Covered(Step(w, Append(event, saved)), s)
  {
    var w' := Step(w, Append(event, saved));
    var stored := AppendEvent(w.mem, event).value.1;
    assert Covered(w, s) && Block(w.mem, s);
    AppendKeepsValid(w.mem, event);
    assert Counter(w.mem, s) <= Counter(w'.mem, s);
    assert s != stored.sessionID || !saved ==> Issued(w'.issued, s) == Issued(w.issued, s);
  }

  lemma DeleteCovers(w: World, id: string, saved: bool, s: string)
    requires Inv(w)
    ensures Covered(Step(w, Delete(id, saved)), s)
  {
    var w' := Step(w, Delete(id, saved));
    assert Covered(w, s);
    DeleteKeepsValid(w.mem, TrimSpace(id));
    if w' != w {
      assert Issued(w'.issued, s) == if s == TrimSpace(id) then {} else Issued(w.issued, s);
    }
  }

  lemma StepCovers(w: World, op: Op, s: string)
    requires Inv(w)
    ensures Covered(Step(w, op), s)
  {
    assert Covered(w, s);
    match op
    case Append(event, saved) => if AppendEvent(w.mem, event).Ok? { AppendCovers(w, event, saved, s); }
    case Delete(id, saved) => DeleteCovers(w, id, saved, s);
    case SetRetention(limit, saved) =>
    case Upsert(record, saved) =>
    case Restart => LoadRestores(w.disk);
  }

  lemma StepKeepsInv(w: World, op: Op)
    requires Inv(w)
    ensures Inv(Step(w, op))
  {
    StepKeepsValid(w, op);
    forall s: string ensures Covered(Step(w, op), s) { StepCovers(w, op, s); }
  }

  /** A store opened where no file exists, then any operations in any order. */
  ghost function Run(ops: seq<Op>): (w: World)
    ensures Inv(w)
  {
    if ops == [] then
      assert Valid(DEFAULT_STATE) by { DefaultIsValid(); }
      World(DEFAULT_STATE, DEFAULT_STATE, map[])
    else
      var w := Run(ops[..|ops| - 1]);
      StepKeepsInv(w, ops[|ops| - 1]);
      Step(w, ops[|ops| - 1])
  }

  lemma DefaultIsValid()
    ensures Valid(DEFAULT_STATE)
  {
  }

  /** In every reachable state the retained events of each session are a block ending at its counter. */
  lemma ReachableLogsAreContiguous(ops: seq<Op>, s: string)
    ensures var st := Run(ops).mem;
            && |st.events| <= st.sessionEventsMax
            && Block(st, s)
  {
    assert Inv(Run(ops));
  }

  /** No append ever returns a number that was already returned for the session since its last
      deletion, whatever saves failed and however often the store was restarted. */
  lemma AppendIssuesFreshNumbers(ops: seq<Op>, event: SessionEvent)
    requires AppendEvent(Run(ops).mem, event).Ok?
    ensures var stored := AppendEvent(Run(ops).mem, event).value.1;
            forall n | n in Issued(Run(ops).issued, stored.sessionID) :: n < stored.seqNo
  {
    AppendKeepsValid(Run(ops).mem, event);
    assert Covered(Run(ops), AppendEvent(Run(ops).mem, event).value.1.sessionID);
  }

  // ----- the store itself -----

  class Store {
    var state: State
    var file: File

    /** The store as `Open` finds it before reading the file. */
    constructor (file: File)
      ensures state == DEFAULT_STATE && this.file == file
    {
      this.state := DEFAULT_STATE;
      this.file := file;
    }

    /** Writes a temporary file and renames it over the old one; either step may fail. */
    method SaveLocked(writable: bool) returns (err: Option<StoreError>)
      modifies this`file
      ensures file == (if writable then Saved(state) else old(file))
      ensures err == if writable then None else Some(SaveFailed)
    {
      if !writable {
        return Some(SaveFailed);
      }
      file := Saved(state);
      return None;
    }

    /** Raises every counter to the numbers found in the log. */
    method RaiseCounters()
      modifies this`state
      ensures state == old(state).(counters := Raise(old(state).counters, old(state).events))
    {
      var i := 0;
      while i < |state.events|
        invariant 0 <= i <= |state.events|
        invariant state == old(state).(counters := state.counters)
        invariant Raise(state.counters, state.events[i..]) == Raise(old(state).counters, state.events)
      {
        var event := state.events[i];
        var sessionID := TrimSpace(event.sessionID);
        assert state.events[i..][0] == event && state.events[i..][1..] == state.events[i + 1..];
        i := i + 1;
        if event.seqNo <= 0 || sessionID == "" {
          continue;
        }
        if event.seqNo > Get(state.counters, sessionID) {
          state := state.(counters := state.counters[sessionID := event.seqNo]);
        }
      }
    }

    method Load(writable: bool) returns (err: Option<StoreError>)
      modifies this
      ensures match old(file)
              case Missing => state == old(state) && (writable ==> file == Saved(state)) && (err.Some? <==> !writable)
              case Empty => state == old(state) && file == old(file) && err == None
              case Corrupt => state == old(state) && file == old(file) && err == Some(DecodeFailed)
              case Saved(st) => state == Loaded(st) && file == old(file) && err == None
    {
      match file {
        case Missing => err := SaveLocked(writable);
        case Empty => err := None;
        case Corrupt => err := Some(DecodeFailed);
        case Saved(next) =>
          state := next;
          var max := NormalizeRetentionLimit(state.sessionEventsMax, DEFAULT_SESSION_EVENTS_MAX);
          state := state.(sessionEventsMax := max);
          state := state.(events := CapTail(state.events, max));
          RaiseCounters();
          err := None;
      }
    }

    method AppendSessionEvent(event: SessionEvent, writable: bool) returns (r: Result<SessionEvent, StoreError>)
      requires 0 <= state.sessionEventsMax
      modifies this
      ensures match AppendEvent(old(state), event)
              case Err(e) => r == Err(e) && state == old(state) && file == old(file)
              case Ok((st, stored)) =>
                && state == st
                && file == (if writable then Saved(st) else old(file))
                && r == if writable then Ok(stored) else Err(SaveFailed)
    {
      var sessionID := TrimSpace(event.sessionID);
      if sessionID == "" {
        return Err(SessionIDRequired);
      }
      var kind := TrimSpace(event.kind);
      if kind == "" {
        return Err(TypeRequired);
      }
      var next := Get(state.counters, sessionID) + 1;
      var stored := event.(sessionID := sessionID, kind := kind, runID := TrimSpace(event.runID), seqNo := next);
      state := state.(counters := state.counters[sessionID := next]);
      state := state.(events := state.events + [stored]);
      assert state == Grown(old(state), stored);
      state := state.(events := CapTail(state.events, state.sessionEventsMax));
      assert AppendEvent(old(state), event) == Ok((state, stored));
      var err := SaveLocked(writable);
      if err.Some? {
        return Err(err.value);
      }
      return Ok(stored);
    }

    method ListSessionEvents(sessionID: string, after: int, limit: int) returns (page: seq<SessionEvent>)
      ensures page == ListEvents(state, sessionID, after, limit)
    {
      var id := TrimSpace(sessionID);
      if id == "" {
        return [];
      }
      var max := if limit <= 0 then 200 else limit;
      if max > 2000 {
        max := 2000;
      }
      page := Scan(id, after, max);
    }

    method Scan(id: string, after: int, max: nat) returns (page: seq<SessionEvent>)
      requires 0 < max
      ensures page == Page(state.events, id, after, max)
    {
      var events := state.events;
      ghost var all := Page(events, id, after, max);
      page := [];
      var i := 0;
      while i < |events|
        invariant 0 <= i <= |events|
        invariant |page| < max
        invariant all == page + Page(events[i..], id, after, max - |page|)
      {
        PageStep(events, i, id, after, max - |page|);
        var event := events[i];
        i := i + 1;
        if event.sessionID == id && event.seqNo > after {
          page := page + [event];
          if |page| >= max {
            break;
          }
        }
      }
    }

    /** Overwrites the record with the same id, or adds one at the end. */
    method PutSession(session: SessionRecord)
      modifies this`state
      ensures state == old(state).(sessions := PutRecord(old(state).sessions, session))
    {
      var sessions := state.sessions;
      var i := 0;
      while i < |sessions| && sessions[i].id != session.id
        invariant i <= |sessions|
        invariant forall k | 0 <= k < i :: sessions[k].id != session.id
      {
        i := i + 1;
      }
      PutRecordAt(sessions, session, i);
      if i < |sessions| {
        state := state.(sessions := sessions[i := session]);
      } else {
        state := state.(sessions := sessions + [session]);
      }
    }

    method UpsertSession(record: SessionRecord, writable: bool) returns (r: Result<SessionRecord, StoreError>)
      modifies this
      ensures match TrimRecord(record).id
              case "" => r == Err(SessionIDRequired) && state == old(state) && file == old(file)
              case _ =>
                && state == old(state).(sessions := PutRecord(old(state).sessions, TrimRecord(record)))
                && file == (if writable then Saved(state) else old(file))
                && r == if writable then Ok(TrimRecord(record)) else Err(SaveFailed)
    {
      var session := TrimRecord(record);
      if session.id == "" {
        return Err(SessionIDRequired);
      }
      PutSession(session);
      var err := SaveLocked(writable);
      return if err.Some? then Err(err.value) else Ok(session);
    }

    /** Position of the first record with this id, or the number of records. */
    method FindSession(key: string) returns (index: nat)
      ensures index == |state.sessions| <==> !HasSession(state, key)
      ensures index < |state.sessions| ==>
                RemoveRecord(state.sessions, key) == state.sessions[..index] + state.sessions[index + 1..]
      ensures index <= |state.sessions|
    {
      index := 0;
      while index < |state.sessions| && state.sessions[index].id != key
        invariant index <= |state.sessions|
        invariant forall i | 0 <= i < index :: state.sessions[i].id != key
        invariant RemoveRecord(state.sessions, key) ==
                  state.sessions[..index] + RemoveRecord(state.sessions[index..], key)
      {
        assert state.sessions[index..][1..] == state.sessions[index + 1..];
        index := index + 1;
      }
    }

    method KeepOthers(key: string) returns (kept: seq<SessionEvent>)
      ensures kept == Without(state.events, key)
    {
      kept := [];
      var events := state.events;
      for i := 0 to |events|
        invariant kept + Without(events[i..], key) == Without(events, key)
      {
        KeepStep(kept, events, i, key);
        if TrimSpace(events[i].sessionID) != key {
          kept := kept + [events[i]];
        }
      }
    }

    method DeleteSession(id: string, writable: bool) returns (deleted: bool, err: Option<StoreError>)
      modifies this
      ensures deleted <==> TrimSpace(id) != "" && HasSession(old(state), TrimSpace(id))
      ensures state == if deleted then DeleteFrom(old(state), TrimSpace(id)) else old(state)
      ensures file == if deleted && writable then Saved(state) else old(file)
      ensures err == if TrimSpace(id) == "" then Some(SessionIDRequired)
                     else if deleted && !writable then Some(SaveFailed) else None
    {
      var key := TrimSpace(id);
      if key == "" {
        return false, Some(SessionIDRequired);
      }
      var index := FindSession(key);
      if index == |state.sessions| {
        return false, None;
      }
      var kept := KeepOthers(key);
      state := state.(sessions := state.sessions[..index] + state.sessions[index + 1..]);
      state := state.(counters := state.counters - {key});
      state := state.(events := kept);
      err := SaveLocked(writable);
      deleted := true;
    }

    method UpdateRetentionPolicy(limit: int, writable: bool) returns (err: Option<StoreError>)
      modifies this
      ensures state == WithRetention(old(state), limit)
      ensures file == if writable then Saved(state) else old(file)
      ensures err == if writable then None else Some(SaveFailed)
    {
      var max := NormalizeRetentionLimit(limit, DEFAULT_SESSION_EVENTS_MAX);
      state := state.(sessionEventsMax := max);
      state := state.(events := CapTail(state.events, max));
      err := SaveLocked(writable);
    }
  }
}
