/** The resumable event stream of one session: appenders, publishers, bounded subscriber channels,
    the handler that replays the log in batches and then tails its channel (server-sent events and
    WebSocket alike), and clients that reconnect at their last cursor. Each step is one lock-held
    region, one channel operation or one frame. */
module Stream {
  import opened Wrappers
  import opened Text
  import opened Decimal
  import opened SessionLog
  import Soak

  const STREAM_BUFFER := 256
  const STREAM_BATCH := 1000

  datatype Frame =
    | EventFrame(event: SessionEvent)
    | ReadyFrame(cursor: int)
    | HeartbeatFrame(cursor: int)
    | ResetFrame(nextAfter: int)

  /** The frame as a client reads it; the body plays no part in the audit. */
  function Shown(f: Frame): Soak.Frame {
    match f
    case EventFrame(e) => Soak.Frame(FormatInt(e.seqNo), "session.event", "{}")
    case ReadyFrame(_) => Soak.Frame("", "session.ready", "{}")
    case HeartbeatFrame(_) => Soak.Frame("", "heartbeat", "{}")
    case ResetFrame(_) => Soak.Frame("", "session.reset", "{}")
  }

  /** A subscriber channel; `open` while it is registered, and closed in the step that removes it. */
  datatype Channel = Channel(buffer: seq<SessionEvent>, open: bool)

  datatype Phase =
    | Replaying(lastSeq: int, batch: seq<SessionEvent>, final: bool)
    | Tailing(lastSeq: int)
    | Gone

  /** One client with its current connection: the handler's phase and channel, what the handler has
      sent since `requested`, the frames on the wire, the client's audit (whose `lastSeq` is the cursor
      it reconnects with), and the numbers it has read over all its connections since `start`. */
  datatype Client = Client(
    start: int,
    phase: Phase,
    channel: Channel,
    requested: int,
    sent: seq<SessionEvent>,
    wire: seq<Frame>,
    report: Soak.Report,
    got: seq<int>)

  function NewClient(start: int): Client {
    Client(start, Gone, Channel([], false), start, [], [], Soak.EMPTY_REPORT.(lastSeq := start), [])
  }

  /** How a reconnecting client names its cursor: in the query, in the `Last-Event-ID` header while the query
      still has the original one, or in both. */
  datatype Resume = ByQuery | ByHeader | ByBoth

  datatype ClientStep = Connect(how: Resume) | Fetch | WriteReplayed | Receive | Beat | Cut(keep: nat) | Read

  function Send(c: Client, f: Frame): Client {
    c.(wire := c.wire + [f], sent := if f.EventFrame? then c.sent + [f.event] else c.sent)
  }

  /** Writes an event unless the cursor is already past it. */
  function SendAbove(c: Client, e: SessionEvent, lastSeq: int): (Client, int) {
    if e.seqNo <= lastSeq then (c, lastSeq) else (Send(c, EventFrame(e)), e.seqNo)
  }

  function GoTailing(c: Client, lastSeq: int): Client {
    Send(c, ReadyFrame(lastSeq)).(phase := Tailing(lastSeq))
  }

  /** The cursor of a request: the query parameter, 0 if blank, raised by a readable header. An unreadable
      query parameter is refused. */
  function ResolveCursor(query: string, header: string): Option<int> {
    match if TrimSpace(query) == "" then Some(0) else ParseCursor(query)
    case None => None
    case Some(after) =>
      match ParseCursor(header)
      case Some(v) => Some(if v > after then v else after)
      case None => Some(after)
  }

  function RequestOf(c: Client, how: Resume): Option<int> {
    var cursor := c.report.lastSeq;
    ResolveCursor(FormatInt(if how == ByHeader then c.start else cursor),
                  if how == ByQuery || cursor <= 0 then "" else FormatInt(cursor))
  }

  lemma ParsePlain(n: nat)
    requires n <= MAX_INT64
    ensures ParseCursor(FormatInt(n)) == Some(n) && TrimSpace(FormatInt(n)) != ""
  {
    FormatIsTrimmed(n);
    ParseFormat(n);
  }

  /** However it is named, the request resumes at the client's cursor. */
  lemma RequestResumes(c: Client, how: Resume)
    requires 0 <= c.start <= c.report.lastSeq <= MAX_INT64
    ensures RequestOf(c, how) == Some(c.report.lastSeq)
  {
    ParsePlain(c.start);
    ParsePlain(c.report.lastSeq);
  }

  function Act(c: Client, a: ClientStep, st: State, sid: string): Client {
    match a
    case Connect(how) =>
      if c.phase != Gone then c
      else
        (match RequestOf(c, how)
         case None => c
         case Some(cursor) =>
           c.(phase := Replaying(cursor, [], false), channel := Channel([], true),
              requested := cursor, sent := [], wire := []))
    case Fetch =>
      if !c.phase.Replaying? || c.phase.batch != [] || c.phase.final then c
      else
        var page := ListEvents(st, sid, c.phase.lastSeq, STREAM_BATCH);
        if page == [] then GoTailing(c, c.phase.lastSeq)
        else c.(phase := Replaying(c.phase.lastSeq, page, |page| < STREAM_BATCH))
    case WriteReplayed =>
      if !c.phase.Replaying? || c.phase.batch == [] then c
      else
        var (c', lastSeq) := SendAbove(c, c.phase.batch[0], c.phase.lastSeq);
        if |c.phase.batch| == 1 && c.phase.final then GoTailing(c', lastSeq)
        else c'.(phase := Replaying(lastSeq, c.phase.batch[1..], c.phase.final))
    case Receive =>
      if !c.phase.Tailing? then c
      else if c.channel.buffer != [] then
        var (c', lastSeq) := SendAbove(c, c.channel.buffer[0], c.phase.lastSeq);
        c'.(phase := Tailing(lastSeq), channel := c.channel.(buffer := c.channel.buffer[1..]))
      else if c.channel.open then c
      else Send(c, ResetFrame(c.phase.lastSeq)).(phase := Gone)
    case Beat => if c.phase.Tailing? then Send(c, HeartbeatFrame(c.phase.lastSeq)) else c
    case Cut(keep) =>
      if c.phase == Gone then c
      else c.(phase := Gone, channel := c.channel.(open := false),
              wire := if keep <= |c.wire| then c.wire[..keep] else c.wire)
    case Read =>
      if c.wire == [] then c
      else c.(wire := c.wire[1..], report := Soak.Apply(c.report, Shown(c.wire[0])),
              got := if c.wire[0].EventFrame? then c.got + [c.wire[0].event.seqNo] else c.got)
  }

  /** A non-blocking send: an event that does not fit closes and removes the channel. */
  function Deliver(c: Client, e: SessionEvent): Client {
    if !c.channel.open then c
    else if |c.channel.buffer| < STREAM_BUFFER then c.(channel := c.channel.(buffer := c.channel.buffer + [e]))
    else c.(channel := c.channel.(open := false))
  }

  function CloseChannel(c: Client): Client {
    c.(channel := c.channel.(open := false))
  }

  /** The store, the appended events not yet published (each held by the goroutine that appended it),
      every event ever appended to the session, and the clients. */
  datatype System = System(
    store: State,
    sid: string,
    unpublished: seq<SessionEvent>,
    appended: set<SessionEvent>,
    clients: map<nat, Client>)

  datatype Step =
    | AppendStep(event: SessionEvent, saved: bool)
    | PublishStep(i: nat)
    | DeleteStep(id: string)
    | CloseStreamsStep
    | RetentionStep(limit: int)
    | ClientStep(k: nat, a: ClientStep)

  function Next(s: System, a: Step): System
    requires Valid(s.store)
  {
    match a
    case AppendStep(event, saved) =>
      (match AppendEvent(s.store, event)
       case Err(_) => s
       case Ok((st, stored)) =>
         if stored.sessionID != s.sid then s.(store := st)
         else s.(store := st, appended := s.appended + {stored},
                 unpublished := if saved then s.unpublished + [stored] else s.unpublished))
    case PublishStep(i) =>
      if i >= |s.unpublished| then s
      else s.(unpublished := s.unpublished[..i] + s.unpublished[i + 1..],
              clients := map k | k in s.clients :: Deliver(s.clients[k], s.unpublished[i]))
    case DeleteStep(id) =>
      var key := TrimSpace(id);
      if key == "" || !HasSession(s.store, key) then s else s.(store := DeleteFrom(s.store, key))
    case CloseStreamsStep => s.(clients := map k | k in s.clients :: CloseChannel(s.clients[k]))
    case RetentionStep(limit) => s.(store := WithRetention(s.store, limit))
    case ClientStep(k, act) =>
      if k !in s.clients then s else s.(clients := s.clients[k := Act(s.clients[k], act, s.store, s.sid)])
  }

  lemma NextKeepsValid(s: System, a: Step)
    requires Valid(s.store)
    ensures Valid(Next(s, a).store)
  {
    match a
    case AppendStep(event, saved) => if AppendEvent(s.store, event).Ok? { AppendKeepsValid(s.store, event); }
    case DeleteStep(id) => DeleteKeepsValid(s.store, TrimSpace(id));
    case RetentionStep(limit) => RetentionKeepsValid(s.store, limit);
    case PublishStep(i) =>
    case CloseStreamsStep =>
    case ClientStep(k, act) =>
  }

  ghost function Run(s: System, steps: seq<Step>): System
    requires Valid(s.store)
    ensures Valid(Run(s, steps).store)
  {
    if steps == [] then s
    else
      var s' := Run(s, steps[..|steps| - 1]);
      NextKeepsValid(s', steps[|steps| - 1]);
      Next(s', steps[|steps| - 1])
  }

  // ----- exactly-once delivery -----

  /** The assumptions: publishes follow append order and saves of the session's events succeed, the
      session is not deleted, its counter fits in 64 bits, and a batch is read only while nothing above
      the handler's cursor has been evicted. */
  ghost predicate Orderly(s: System, a: Step) {
    match a
    case AppendStep(event, saved) =>
      TrimSpace(event.sessionID) == s.sid ==> saved && Counter(s.store, s.sid) < MAX_INT64
    case PublishStep(i) => i == 0
    case DeleteStep(id) => TrimSpace(id) != s.sid
    case CloseStreamsStep => true
    case RetentionStep(limit) => true
    case ClientStep(k, act) =>
      act == Fetch && k in s.clients && s.clients[k].phase.Replaying? ==>
        Counter(s.store, s.sid) - |Of(s.store.events, s.sid)| <= s.clients[k].phase.lastSeq
  }

  ghost predicate OrderlyRun(s: System, steps: seq<Step>)
    requires Valid(s.store)
  {
    steps != [] ==>
      var n := |steps| - 1;
      OrderlyRun(s, steps[..n]) && Orderly(Run(s, steps[..n]), steps[n])
  }

  /** The event frames on the wire continue the cursor without a gap. */
  predicate Consecutive(wire: seq<Frame>, cursor: int) {
    if wire == [] then true
    else if wire[0].EventFrame? then wire[0].event.seqNo == cursor + 1 && Consecutive(wire[1..], cursor + 1)
    else Consecutive(wire[1..], cursor)
  }

  function CursorAfter(wire: seq<Frame>, cursor: int): int {
    if wire == [] then cursor
    else CursorAfter(wire[1..], if wire[0].EventFrame? then wire[0].event.seqNo else cursor)
  }

  lemma {:induction false} ConsecutiveSend(wire: seq<Frame>, cursor: int, f: Frame)
    requires Consecutive(wire, cursor)
    requires f.EventFrame? ==> f.event.seqNo == CursorAfter(wire, cursor) + 1
    ensures Consecutive(wire + [f], cursor)
    ensures CursorAfter(wire + [f], cursor) == if f.EventFrame? then f.event.seqNo else CursorAfter(wire, cursor)
    decreases |wire|
  {
    if wire == [] {
      assert wire + [f] == [f];
      assert [f][1..] == [];
    } else {
      assert (wire + [f])[1..] == wire[1..] + [f];
      ConsecutiveSend(wire[1..], if wire[0].EventFrame? then cursor + 1 else cursor, f);
    }
  }

  lemma {:induction false} ConsecutivePrefix(wire: seq<Frame>, cursor: int, keep: nat)
    requires Consecutive(wire, cursor) && keep <= |wire|
    ensures Consecutive(wire[..keep], cursor)
    ensures cursor <= CursorAfter(wire[..keep], cursor) <= CursorAfter(wire, cursor)
    decreases |wire|
  {
    if wire != [] {
      var next := if wire[0].EventFrame? then cursor + 1 else cursor;
      if keep > 0 {
        assert wire[..keep][1..] == wire[1..][..keep - 1];
        ConsecutivePrefix(wire[1..], next, keep - 1);
      } else {
        ConsecutivePrefix(wire[1..], next, 0);
      }
    }
  }

  /** The buffered events are consecutive, none is beyond `published`, and an open channel holds
      everything up to it. */
  ghost predicate ChannelOk(ch: Channel, published: int) {
    && (forall i | 0 <= i < |ch.buffer| :: ch.buffer[i].seqNo == ch.buffer[0].seqNo + i)
    && (ch.buffer != [] ==> ch.buffer[0].seqNo + |ch.buffer| <= published + 1)
    && (ch.buffer != [] && ch.open ==> ch.buffer[0].seqNo + |ch.buffer| == published + 1)
  }

  /** The channel leaves no gap above `upto`. */
  ghost predicate Meets(ch: Channel, published: int, upto: int) {
    && (ch.buffer != [] ==> ch.buffer[0].seqNo <= upto + 1)
    && (ch.buffer == [] && ch.open ==> published <= upto)
  }

  ghost predicate RunFrom(batch: seq<SessionEvent>, lastSeq: int) {
    forall i | 0 <= i < |batch| :: batch[i].seqNo == lastSeq + 1 + i
  }

  /** The client has read exactly `start + 1 .. lastSeq` and its audit found nothing. */
  ghost predicate AuditOk(c: Client, counter: int) {
    && 0 <= c.start && c.report.lastSeq == c.start + |c.got| <= counter <= MAX_INT64
    && (forall i | 0 <= i < |c.got| :: c.got[i] == c.start + 1 + i)
    && Soak.Anomalies(c.report) == 0
  }

  ghost predicate HandlerOk(c: Client, counter: int, published: int) {
    match c.phase
    case Gone => !c.channel.open
    case Tailing(lastSeq) =>
      && lastSeq == CursorAfter(c.wire, c.report.lastSeq)
      && ChannelOk(c.channel, published) && Meets(c.channel, published, lastSeq)
    case Replaying(lastSeq, batch, final) =>
      && lastSeq == CursorAfter(c.wire, c.report.lastSeq)
      && RunFrom(batch, lastSeq) && lastSeq + |batch| <= counter
      && ChannelOk(c.channel, published)
      && (final ==> batch != [] && Meets(c.channel, published, lastSeq + |batch|))
  }

  ghost predicate ClientOk(c: Client, counter: int, published: int) {
    && AuditOk(c, counter)
    && Consecutive(c.wire, c.report.lastSeq) && CursorAfter(c.wire, c.report.lastSeq) <= counter
    && HandlerOk(c, counter, published)
  }

  function Published(s: System): int {
    Counter(s.store, s.sid) - |s.unpublished|
  }

  ghost predicate Synced(s: System) {
    && Valid(s.store)
    && s.sid != "" && IsTrimmed(s.sid)
    && 0 <= Published(s)
    && RunFrom(s.unpublished, Published(s))
    && forall k | k in s.clients :: ClientOk(s.clients[k], Counter(s.store, s.sid), Published(s))
  }

  lemma SendKeeps(c: Client, f: Frame, counter: int)
    requires AuditOk(c, counter) && Consecutive(c.wire, c.report.lastSeq)
    requires f.EventFrame? ==> f.event.seqNo == CursorAfter(c.wire, c.report.lastSeq) + 1
    ensures var c' := Send(c, f);
            && AuditOk(c', counter) && Consecutive(c'.wire, c'.report.lastSeq)
            && CursorAfter(c'.wire, c'.report.lastSeq)
               == if f.EventFrame? then f.event.seqNo else CursorAfter(c.wire, c.report.lastSeq)
  {
    ConsecutiveSend(c.wire, c.report.lastSeq, f);
  }

  lemma ConnectKeeps(c: Client, how: Resume, st: State, sid: string, counter: int, published: int)
    requires ClientOk(c, counter, published)
    ensures ClientOk(Act(c, Connect(how), st, sid), counter, published)
  {
    RequestResumes(c, how);
  }

  /** Reading a batch: a short batch reaches the end of the log, so it meets whatever the channel has
      collected since the subscription. */
  lemma FetchKeeps(c: Client, st: State, sid: string, published: int)
    requires Valid(st) && sid != "" && IsTrimmed(sid) && published <= Counter(st, sid)
    requires ClientOk(c, Counter(st, sid), published)
    requires c.phase.Replaying? ==> Counter(st, sid) - |Of(st.events, sid)| <= c.phase.lastSeq
    ensures ClientOk(Act(c, Fetch, st, sid), Counter(st, sid), published)
  {
    if c.phase.Replaying? && c.phase.batch == [] && !c.phase.final {
      PageFollowsCursor(st, sid, c.phase.lastSeq, STREAM_BATCH);
      SendKeeps(c, ReadyFrame(c.phase.lastSeq), Counter(st, sid));
    }
  }

  lemma WriteReplayedKeeps(c: Client, st: State, sid: string, counter: int, published: int)
    requires ClientOk(c, counter, published)
    ensures ClientOk(Act(c, WriteReplayed, st, sid), counter, published)
  {
    if c.phase.Replaying? && c.phase.batch != [] {
      var e := c.phase.batch[0];
      SendKeeps(c, EventFrame(e), counter);
      SendKeeps(Send(c, EventFrame(e)), ReadyFrame(e.seqNo), counter);
    }
  }

  lemma ReceiveKeeps(c: Client, st: State, sid: string, counter: int, published: int)
    requires ClientOk(c, counter, published) && published <= counter
    ensures ClientOk(Act(c, Receive, st, sid), counter, published)
  {
    if c.phase.Tailing? {
      if c.channel.buffer != [] {
        if c.phase.lastSeq < c.channel.buffer[0].seqNo {
          SendKeeps(c, EventFrame(c.channel.buffer[0]), counter);
        }
      } else if !c.channel.open {
        SendKeeps(c, ResetFrame(c.phase.lastSeq), counter);
      }
    }
  }

  /** The audit accepts the number right above its cursor. */
  lemma AuditNext(r: Soak.Report, e: SessionEvent)
    requires 0 <= r.lastSeq < MAX_INT64 && e.seqNo == r.lastSeq + 1
    ensures Soak.Apply(r, Shown(EventFrame(e))) == r.(sessionEvents := r.sessionEvents + 1, lastSeq := e.seqNo)
  {
    ParseFormat(e.seqNo);
    FormatIsTrimmed(e.seqNo);
  }

  lemma ReadFront(wire: seq<Frame>, cursor: int)
    requires wire != [] && Consecutive(wire, cursor)
    ensures var next := if wire[0].EventFrame? then wire[0].event.seqNo else cursor;
            Consecutive(wire[1..], next) && next <= CursorAfter(wire[1..], next) == CursorAfter(wire, cursor)
  {
    ConsecutivePrefix(wire[1..], if wire[0].EventFrame? then cursor + 1 else cursor, 0);
    ConsecutivePrefix(wire[1..], if wire[0].EventFrame? then cursor + 1 else cursor, |wire| - 1);
    assert wire[1..][..|wire| - 1] == wire[1..];
  }

  lemma AuditReads(c: Client, f: Frame, counter: int)
    requires AuditOk(c, counter)
    requires f.EventFrame? ==> f.event.seqNo == c.report.lastSeq + 1 <= counter
    ensures var c' := c.(report := Soak.Apply(c.report, Shown(f)),
                         got := if f.EventFrame? then c.got + [f.event.seqNo] else c.got);
            && AuditOk(c', counter)
            && c'.report.lastSeq == if f.EventFrame? then f.event.seqNo else c.report.lastSeq
  {
    if f.EventFrame? { AuditNext(c.report, f.event); }
  }

  lemma ReadKeeps(c: Client, st: State, sid: string, counter: int, published: int)
    requires ClientOk(c, counter, published)
    ensures ClientOk(Act(c, Read, st, sid), counter, published)
  {
    if c.wire != [] {
      ReadFront(c.wire, c.report.lastSeq);
      AuditReads(c, c.wire[0], counter);
    }
  }

  lemma ActKeeps(c: Client, a: ClientStep, st: State, sid: string, published: int)
    requires Valid(st) && sid != "" && IsTrimmed(sid) && published <= Counter(st, sid)
    requires ClientOk(c, Counter(st, sid), published)
    requires a == Fetch && c.phase.Replaying? ==> Counter(st, sid) - |Of(st.events, sid)| <= c.phase.lastSeq
    ensures ClientOk(Act(c, a, st, sid), Counter(st, sid), published)
  {
    match a
    case Connect(how) => ConnectKeeps(c, how, st, sid, Counter(st, sid), published);
    case Fetch => FetchKeeps(c, st, sid, published);
    case WriteReplayed => WriteReplayedKeeps(c, st, sid, Counter(st, sid), published);
    case Receive => ReceiveKeeps(c, st, sid, Counter(st, sid), published);
    case Beat => if c.phase.Tailing? { SendKeeps(c, HeartbeatFrame(c.phase.lastSeq), Counter(st, sid)); }
    case Cut(keep) => if keep <= |c.wire| { ConsecutivePrefix(c.wire, c.report.lastSeq, keep); }
    case Read => ReadKeeps(c, st, sid, Counter(st, sid), published);
  }

  lemma DeliverKeeps(c: Client, e: SessionEvent, counter: int, published: int)
    requires ClientOk(c, counter, published) && e.seqNo == published + 1
    ensures ClientOk(Deliver(c, e), counter, published + 1)
  {
  }

  lemma CounterGrows(c: Client, counter: int, counter': int, published: int)
    requires ClientOk(c, counter, published) && counter <= counter' <= MAX_INT64
    ensures ClientOk(c, counter', published)
  {
  }

  lemma AppendMovesCounter(st: State, event: SessionEvent, sid: string)
    requires Valid(st) && AppendEvent(st, event).Ok?
    ensures var (st', stored) := AppendEvent(st, event).value;
            && Valid(st') && stored.sessionID == TrimSpace(event.sessionID)
            && Counter(st', sid) == (if stored.sessionID == sid then Counter(st, sid) + 1 else Counter(st, sid))
            && (stored.sessionID == sid ==> stored.seqNo == Counter(st, sid) + 1)
  {
    AppendKeepsValid(st, event);
  }

  lemma RunGrows(batch: seq<SessionEvent>, lastSeq: int, e: SessionEvent)
    requires RunFrom(batch, lastSeq) && e.seqNo == lastSeq + |batch| + 1
    ensures RunFrom(batch + [e], lastSeq)
  {
  }

  /** What an append does to a session's counter. */
  lemma AppendCounts(s: System, event: SessionEvent, saved: bool)
    requires Valid(s.store) && Orderly(s, AppendStep(event, saved)) && AppendEvent(s.store, event).Ok?
    ensures var s' := Next(s, AppendStep(event, saved));
            && Valid(s'.store) && s'.sid == s.sid && s'.clients == s.clients && Published(s') == Published(s)
            && Counter(s.store, s.sid) <= Counter(s'.store, s.sid)
            && (Counter(s'.store, s.sid) != Counter(s.store, s.sid) ==> Counter(s.store, s.sid) < MAX_INT64)
            && Counter(s'.store, s.sid) <= Counter(s.store, s.sid) + 1
            && (RunFrom(s.unpublished, Published(s)) ==> RunFrom(s'.unpublished, Published(s)))
  {
    AppendMovesCounter(s.store, event, s.sid);
    var stored := AppendEvent(s.store, event).value.1;
    if stored.sessionID == s.sid && RunFrom(s.unpublished, Published(s)) {
      RunGrows(s.unpublished, Published(s), stored);
    }
  }

  lemma ClientsSeeMore(s: System, counter: int, counter': int)
    requires forall k | k in s.clients :: ClientOk(s.clients[k], counter, Published(s))
    requires counter == counter' || counter <= counter' <= MAX_INT64
    ensures forall k | k in s.clients :: ClientOk(s.clients[k], counter', Published(s))
  {
    forall k | k in s.clients ensures ClientOk(s.clients[k], counter', Published(s)) {
      if counter' != counter { CounterGrows(s.clients[k], counter, counter', Published(s)); }
    }
  }

  lemma AppendKeepsSynced(s: System, event: SessionEvent, saved: bool)
    requires Synced(s) && Orderly(s, AppendStep(event, saved)) && AppendEvent(s.store, event).Ok?
    ensures Synced(Next(s, AppendStep(event, saved)))
  {
    AppendCounts(s, event, saved);
    ClientsSeeMore(s, Counter(s.store, s.sid), Counter(Next(s, AppendStep(event, saved)).store, s.sid));
  }

  lemma PublishAdvances(s: System)
    requires s.unpublished != [] && RunFrom(s.unpublished, Published(s)) && Valid(s.store)
    ensures var s' := Next(s, PublishStep(0));
            && s'.store == s.store && s'.sid == s.sid
            && s'.unpublished == s.unpublished[1..] && Published(s') == Published(s) + 1
            && RunFrom(s'.unpublished, Published(s'))
  {
    var s' := Next(s, PublishStep(0));
    assert s'.unpublished == s.unpublished[1..];
    assert forall i | 0 <= i < |s'.unpublished| :: s'.unpublished[i] == s.unpublished[i + 1];
  }

  lemma PublishKeepsSynced(s: System)
    requires Synced(s) && s.unpublished != []
    ensures Synced(Next(s, PublishStep(0)))
  {
    PublishAdvances(s);
    var s' := Next(s, PublishStep(0));
    forall k | k in s'.clients ensures ClientOk(s'.clients[k], Counter(s'.store, s'.sid), Published(s')) {
      DeliverKeeps(s.clients[k], s.unpublished[0], Counter(s.store, s.sid), Published(s));
    }
  }

  lemma ClientStepKeepsSynced(s: System, k: nat, act: ClientStep)
    requires Synced(s) && Orderly(s, ClientStep(k, act)) && k in s.clients
    ensures Synced(Next(s, ClientStep(k, act)))
  {
    ActKeeps(s.clients[k], act, s.store, s.sid, Published(s));
    var s' := Next(s, ClientStep(k, act));
    assert Published(s') == Published(s);
    forall j | j in s'.clients ensures ClientOk(s'.clients[j], Counter(s.store, s.sid), Published(s)) {
      assert j != k ==> s'.clients[j] == s.clients[j];
    }
  }

  /** Only the session's counter matters to the clients. */
  lemma OtherStoreIsSynced(s: System, st: State)
    requires Synced(s) && Valid(st) && Counter(st, s.sid) == Counter(s.store, s.sid)
    ensures Synced(s.(store := st))
  {
    var s' := s.(store := st);
    assert Published(s') == Published(s);
    forall k | k in s'.clients ensures ClientOk(s'.clients[k], Counter(st, s.sid), Published(s')) {
      assert ClientOk(s.clients[k], Counter(s.store, s.sid), Published(s));
    }
  }

  lemma CloseKeeps(c: Client, counter: int, published: int)
    requires ClientOk(c, counter, published)
    ensures ClientOk(CloseChannel(c), counter, published)
  {
  }

  lemma CloseStreamsKeepsSynced(s: System)
    requires Synced(s)
    ensures Synced(Next(s, CloseStreamsStep))
  {
    forall k | k in s.clients ensures ClientOk(CloseChannel(s.clients[k]), Counter(s.store, s.sid), Published(s)) {
      CloseKeeps(s.clients[k], Counter(s.store, s.sid), Published(s));
    }
  }

  lemma NextKeepsSynced(s: System, a: Step)
    requires Synced(s) && Orderly(s, a)
    ensures Synced(Next(s, a))
  {
    match a
    case AppendStep(event, saved) => if AppendEvent(s.store, event).Ok? { AppendKeepsSynced(s, event, saved); }
    case PublishStep(i) => if s.unpublished != [] { PublishKeepsSynced(s); }
    case DeleteStep(id) =>
      DeleteKeepsValid(s.store, TrimSpace(id));
      OtherStoreIsSynced(s, Next(s, a).store);
    case CloseStreamsStep => CloseStreamsKeepsSynced(s);
    case RetentionStep(limit) =>
      RetentionKeepsValid(s.store, limit);
      OtherStoreIsSynced(s, Next(s, a).store);
    case ClientStep(k, act) => if k in s.clients { ClientStepKeepsSynced(s, k, act); }
  }

  lemma {:induction false} RunKeepsSynced(s: System, steps: seq<Step>)
    requires Synced(s) && OrderlyRun(s, steps)
    ensures Synced(Run(s, steps))
    decreases |steps|
  {
    if steps != [] {
      var n := |steps| - 1;
      RunKeepsSynced(s, steps[..n]);
      NextKeepsSynced(Run(s, steps[..n]), steps[n]);
    }
  }

  /** Exactly-once delivery: however appends, publishes, batches, live receives, overflows, cuts and
      reconnects interleave, the numbers a client reads over all its connections are
      `start + 1, start + 2, ...` without gap or repeat, and its audit stays clean. */
  lemma DeliveredExactlyOnce(s: System, steps: seq<Step>, k: nat)
    requires Synced(s) && OrderlyRun(s, steps) && k in Run(s, steps).clients
    ensures var c := Run(s, steps).clients[k];
            && (forall i | 0 <= i < |c.got| :: c.got[i] == c.start + 1 + i)
            && c.report.lastSeq == c.start + |c.got|
            && Soak.Anomalies(c.report) == 0
  {
    RunKeepsSynced(s, steps);
  }

  /** Nothing is held back: once everything is published and a tailing handler's channel is open and
      drained, and its frames are read, the client has every number up to the counter. */
  lemma QuietClientIsCaughtUp(s: System, steps: seq<Step>, k: nat)
    requires Synced(s) && OrderlyRun(s, steps) && k in Run(s, steps).clients
    requires var c := Run(s, steps).clients[k];
             c.phase.Tailing? && c.channel == Channel([], true) && c.wire == [] && Run(s, steps).unpublished == []
    ensures var c := Run(s, steps).clients[k];
            c.start + |c.got| == Counter(Run(s, steps).store, s.sid)
  {
    RunKeepsSynced(s, steps);
    SidIsFixed(s, steps);
  }

  lemma {:induction false} SidIsFixed(s: System, steps: seq<Step>)
    requires Valid(s.store)
    ensures Run(s, steps).sid == s.sid
    decreases |steps|
  {
    if steps != [] { SidIsFixed(s, steps[..|steps| - 1]); }
  }

  /** Fresh clients whose cursor does not exceed the counter start in step with any log. */
  lemma FreshClientsAreSynced(s: System)
    requires Valid(s.store) && s.sid != "" && IsTrimmed(s.sid) && s.unpublished == []
    requires Counter(s.store, s.sid) <= MAX_INT64
    requires forall k | k in s.clients ::
               0 <= s.clients[k].start <= Counter(s.store, s.sid) && s.clients[k] == NewClient(s.clients[k].start)
    ensures Synced(s)
  {
    assert Block(s.store, s.sid);
  }

  // ----- without any assumption on the publish order -----

  ghost predicate Increasing(sent: seq<SessionEvent>, cursor: int) {
    && (forall i | 0 <= i < |sent| :: cursor < sent[i].seqNo)
    && forall i, j | 0 <= i < j < |sent| :: sent[i].seqNo < sent[j].seqNo
  }

  ghost predicate AllIn(q: seq<SessionEvent>, appended: set<SessionEvent>) {
    forall i | 0 <= i < |q| :: q[i] in appended
  }

  function LastSent(c: Client): int {
    if c.sent == [] then c.requested else c.sent[|c.sent| - 1].seqNo
  }

  /** What the current connection has sent increases above the requested cursor and was appended. */
  ghost predicate SafeClient(c: Client, appended: set<SessionEvent>) {
    && Increasing(c.sent, c.requested) && AllIn(c.sent, appended)
    && AllIn(c.channel.buffer, appended)
    && match c.phase
       case Gone => true
       case Tailing(lastSeq) => lastSeq == LastSent(c)
       case Replaying(lastSeq, batch, _) => lastSeq == LastSent(c) && AllIn(batch, appended)
  }

  ghost predicate LogIn(events: seq<SessionEvent>, sid: string, appended: set<SessionEvent>) {
    forall i | 0 <= i < |events| && events[i].sessionID == sid :: events[i] in appended
  }

  ghost predicate Safe(s: System) {
    && Valid(s.store) && s.sid != "" && IsTrimmed(s.sid)
    && (forall e | e in s.appended :: e.sessionID == s.sid)
    && LogIn(s.store.events, s.sid, s.appended)
    && AllIn(s.unpublished, s.appended)
    && forall k | k in s.clients :: SafeClient(s.clients[k], s.appended)
  }

  lemma {:induction false} PageIn(events: seq<SessionEvent>, sid: string, after: int, limit: nat,
        appended: set<SessionEvent>)
    requires LogIn(events, sid, appended)
    ensures AllIn(Page(events, sid, after, limit), appended)
  {
    if events != [] && limit > 0 {
      var n := if events[0].sessionID == sid && after < events[0].seqNo then limit - 1 else limit;
      PageIn(events[1..], sid, after, n, appended);
    }
  }

  lemma {:induction false} WithoutIn(events: seq<SessionEvent>, id: string, sid: string, appended: set<SessionEvent>)
    requires LogIn(events, sid, appended)
    ensures LogIn(Without(events, id), sid, appended)
  {
    if events != [] { WithoutIn(events[1..], id, sid, appended); }
  }

  lemma SendAboveKeepsSafe(c: Client, e: SessionEvent, appended: set<SessionEvent>)
    requires Increasing(c.sent, c.requested) && AllIn(c.sent, appended) && e in appended
    ensures var (c', lastSeq) := SendAbove(c, e, LastSent(c));
            && Increasing(c'.sent, c'.requested) && AllIn(c'.sent, appended) && lastSeq == LastSent(c')
  {
  }

  lemma WriteReplayedKeepsSafe(c: Client, st: State, sid: string, appended: set<SessionEvent>)
    requires SafeClient(c, appended)
    ensures SafeClient(Act(c, WriteReplayed, st, sid), appended)
  {
    if c.phase.Replaying? && c.phase.batch != [] { SendAboveKeepsSafe(c, c.phase.batch[0], appended); }
  }

  lemma ReceiveKeepsSafe(c: Client, st: State, sid: string, appended: set<SessionEvent>)
    requires SafeClient(c, appended)
    ensures SafeClient(Act(c, Receive, st, sid), appended)
  {
    if c.phase.Tailing? && c.channel.buffer != [] { SendAboveKeepsSafe(c, c.channel.buffer[0], appended); }
  }

  lemma ActKeepsSafe(c: Client, a: ClientStep, st: State, sid: string, appended: set<SessionEvent>)
    requires SafeClient(c, appended) && LogIn(st.events, sid, appended) && sid != "" && IsTrimmed(sid)
    ensures SafeClient(Act(c, a, st, sid), appended)
  {
    match a
    case Connect(how) =>
    case Fetch => if c.phase.Replaying? { PageIn(st.events, sid, c.phase.lastSeq, STREAM_BATCH, appended); }
    case WriteReplayed => WriteReplayedKeepsSafe(c, st, sid, appended);
    case Receive => ReceiveKeepsSafe(c, st, sid, appended);
    case Beat =>
    case Cut(keep) =>
    case Read =>
  }

  lemma MoreAppended(c: Client, appended: set<SessionEvent>, appended': set<SessionEvent>)
    requires SafeClient(c, appended) && appended <= appended'
    ensures SafeClient(c, appended')
  {
  }

  lemma AppendKeepsLog(st: State, event: SessionEvent, sid: string, appended: set<SessionEvent>)
    requires Valid(st) && AppendEvent(st, event).Ok? && LogIn(st.events, sid, appended)
    ensures var (st', stored) := AppendEvent(st, event).value;
            LogIn(st'.events, sid, if stored.sessionID == sid then appended + {stored} else appended)
  {
    var stored := AppendEvent(st, event).value.1;
    assert LogIn(st.events + [stored], sid, if stored.sessionID == sid then appended + {stored} else appended);
  }

  lemma AppendKeepsSafe(s: System, event: SessionEvent, saved: bool)
    requires Safe(s)
    ensures Safe(Next(s, AppendStep(event, saved)))
  {
    if AppendEvent(s.store, event).Ok? {
      var s' := Next(s, AppendStep(event, saved));
      AppendKeepsValid(s.store, event);
      AppendKeepsLog(s.store, event, s.sid, s.appended);
      forall k | k in s.clients ensures SafeClient(s.clients[k], s'.appended) {
        MoreAppended(s.clients[k], s.appended, s'.appended);
      }
    }
  }

  lemma PublishKeepsSafe(s: System, i: nat)
    requires Safe(s)
    ensures Safe(Next(s, PublishStep(i)))
  {
    assert i < |s.unpublished| ==> s.unpublished[i] in s.appended;
  }

  lemma StoreKeepsSafe(s: System, s': System)
    requires Safe(s) && s' == s.(store := s'.store)
    requires Valid(s'.store) && LogIn(s'.store.events, s.sid, s.appended)
    ensures Safe(s')
  {
  }

  lemma RetentionKeepsLog(st: State, limit: int, sid: string, appended: set<SessionEvent>)
    requires LogIn(st.events, sid, appended)
    ensures LogIn(WithRetention(st, limit).events, sid, appended)
  {
  }

  lemma DeleteKeepsSafe(s: System, id: string)
    requires Safe(s)
    ensures Safe(Next(s, DeleteStep(id)))
  {
    DeleteKeepsValid(s.store, TrimSpace(id));
    WithoutIn(s.store.events, TrimSpace(id), s.sid, s.appended);
    StoreKeepsSafe(s, Next(s, DeleteStep(id)));
  }

  lemma RetentionKeepsSafe(s: System, limit: int)
    requires Safe(s)
    ensures Safe(Next(s, RetentionStep(limit)))
  {
    RetentionKeepsValid(s.store, limit);
    RetentionKeepsLog(s.store, limit, s.sid, s.appended);
    StoreKeepsSafe(s, Next(s, RetentionStep(limit)));
  }

  lemma CloseStreamsKeepsSafe(s: System)
    requires Safe(s)
    ensures Safe(Next(s, CloseStreamsStep))
  {
  }

  lemma ClientKeepsSafe(s: System, k: nat, act: ClientStep)
    requires Safe(s)
    ensures Safe(Next(s, ClientStep(k, act)))
  {
    if k in s.clients { ActKeepsSafe(s.clients[k], act, s.store, s.sid, s.appended); }
  }

  lemma NextKeepsSafe(s: System, a: Step)
    requires Safe(s)
    ensures Safe(Next(s, a))
  {
    match a
    case AppendStep(event, saved) => AppendKeepsSafe(s, event, saved);
    case PublishStep(i) => PublishKeepsSafe(s, i);
    case DeleteStep(id) => DeleteKeepsSafe(s, id);
    case CloseStreamsStep => CloseStreamsKeepsSafe(s);
    case RetentionStep(limit) => RetentionKeepsSafe(s, limit);
    case ClientStep(k, act) => ClientKeepsSafe(s, k, act);
  }

  lemma {:induction false} RunKeepsSafe(s: System, steps: seq<Step>)
    requires Safe(s)
    ensures Safe(Run(s, steps)) && Run(s, steps).sid == s.sid
    decreases |steps|
  {
    if steps != [] {
      RunKeepsSafe(s, steps[..|steps| - 1]);
      NextKeepsSafe(Run(s, steps[..|steps| - 1]), steps[|steps| - 1]);
    }
  }

  /** Fresh clients are safe on any log: what counts as appended are the session's events in it. */
  lemma FreshClientsAreSafe(s: System)
    requires Valid(s.store) && s.sid != "" && IsTrimmed(s.sid) && s.unpublished == []
    requires s.appended == set e | e in s.store.events && e.sessionID == s.sid
    requires forall k | k in s.clients :: s.clients[k] == NewClient(s.clients[k].start)
    ensures Safe(s)
  {
  }

  /** On every connection, in every run whatsoever (publishes out of order, failed saves, evictions,
      deletion of the session), the numbers sent strictly increase above the requested cursor and every
      event sent was appended to this session. */
  lemma EveryConnectionIsSafe(s: System, steps: seq<Step>, k: nat)
    requires Safe(s) && k in Run(s, steps).clients
    ensures var t := Run(s, steps);
            var c := t.clients[k];
            && (forall i | 0 <= i < |c.sent| :: c.requested < c.sent[i].seqNo)
            && (forall i, j | 0 <= i < j < |c.sent| :: c.sent[i].seqNo < c.sent[j].seqNo)
            && (forall i | 0 <= i < |c.sent| :: c.sent[i] in t.appended && c.sent[i].sessionID == s.sid)
  {
    RunKeepsSafe(s, steps);
    assert SafeClient(Run(s, steps).clients[k], Run(s, steps).appended);
  }
}
