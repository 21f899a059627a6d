/** What the stream handler owes a client: that it replays the log, goes on to tail, and says so; and that it
    tells the client where to resume when its channel is closed. */
module CatchUp {
  import opened Wrappers
  import opened Text
  import opened Decimal
  import opened SessionLog
  import opened Stream
  import opened PublishOrder
  import opened Gaps

  // ----- one batch -----

  function Least(a: int, b: int): int {
    if a <= b then a else b
  }

  /** Reading a batch when nothing above the cursor is evicted: the next numbers up to the batch size, taken from
      the session's log, and final exactly when it is short; at the end of the log the handler starts tailing
      and says at which cursor. */
  lemma FetchAdvances(c: Client, st: State, sid: string, cursor: int)
    requires Valid(st) && sid != "" && IsTrimmed(sid) && c.phase == Replaying(cursor, [], false)
    requires Counter(st, sid) - |Of(st.events, sid)| <= cursor <= Counter(st, sid)
    ensures var c', counter := Act(c, Fetch, st, sid), Counter(st, sid);
            && (cursor == counter ==> c' == c.(phase := Tailing(cursor), wire := c.wire + [ReadyFrame(cursor)]))
            && (cursor < counter ==>
                  && c'.phase.Replaying? && c'.phase.lastSeq == cursor && c' == c.(phase := c'.phase)
                  && RunFrom(c'.phase.batch, cursor) && |c'.phase.batch| == Least(counter - cursor, STREAM_BATCH)
                  && (c'.phase.final <==> counter - cursor < STREAM_BATCH)
                  && forall e | e in c'.phase.batch :: e in st.events && e.sessionID == sid)
  {
    PageFollowsCursor(st, sid, cursor, STREAM_BATCH);
    PageIsOwn(st.events, sid, cursor, STREAM_BATCH);
  }

  lemma {:induction false} PageIsOwn(events: seq<SessionEvent>, s: string, after: int, limit: nat)
    ensures forall e | e in Page(events, s, after, limit) :: e in events && e.sessionID == s
  {
    if events != [] && limit > 0 {
      PageIsOwn(events[1..], s, after, limit - 1);
      PageIsOwn(events[1..], s, after, limit);
    }
  }

  /** Writing a replayed event puts it on the wire, and after the last one of a final batch the handler tails. */
  lemma WriteAdvances(c: Client, st: State, sid: string)
    requires c.phase.Replaying? && c.phase.batch != [] && RunFrom(c.phase.batch, c.phase.lastSeq)
    ensures var c', e := Act(c, WriteReplayed, st, sid), c.phase.batch[0];
            if |c.phase.batch| == 1 && c.phase.final then
              && c'.phase == Tailing(e.seqNo) && c'.wire == c.wire + [EventFrame(e), ReadyFrame(e.seqNo)]
            else
              && c'.phase == Replaying(e.seqNo, c.phase.batch[1..], c.phase.final)
              && c'.wire == c.wire + [EventFrame(e)] && RunFrom(c'.phase.batch, e.seqNo)
  {
    var e := c.phase.batch[0];
    assert e.seqNo == c.phase.lastSeq + 1;
    assert c.wire + [EventFrame(e)] + [ReadyFrame(e.seqNo)] == c.wire + [EventFrame(e), ReadyFrame(e.seqNo)];
    forall i | 0 <= i < |c.phase.batch| - 1 ensures c.phase.batch[1..][i].seqNo == e.seqNo + 1 + i {
      assert c.phase.batch[1..][i] == c.phase.batch[i + 1];
    }
  }

  // ----- the whole replay -----

  function Times(n: nat, a: ClientStep): seq<ClientStep> {
    if n == 0 then [] else [a] + Times(n - 1, a)
  }

  /** Steps of the handler's replay. */
  ghost predicate ReplaySteps(acts: seq<ClientStep>) {
    forall i | 0 <= i < |acts| :: acts[i] == Fetch || acts[i] == WriteReplayed
  }

  /** The wire holds `n` frames more. */
  predicate Wrote(c: Client, c': Client, n: nat) {
    |c'.wire| == |c.wire| + n && c.wire <= c'.wire
  }

  /** The clients that these steps pass through. */
  ghost predicate IsPath(path: seq<Client>, acts: seq<ClientStep>, st: State, sid: string) {
    && |path| == |acts| + 1
    && forall i | 0 <= i < |acts| :: path[i + 1] == Act(path[i], acts[i], st, sid)
  }

  /** These steps lead the client there. */
  ghost predicate Leads(c: Client, acts: seq<ClientStep>, c': Client, st: State, sid: string) {
    exists path :: IsPath(path, acts, st, sid) && path[0] == c && path[|acts|] == c'
  }

  lemma LeadsNowhere(c: Client, st: State, sid: string)
    ensures Leads(c, [], c, st, sid)
  {
    assert IsPath([c], [], st, sid);
  }

  lemma LeadsOnce(c: Client, a: ClientStep, st: State, sid: string)
    ensures Leads(c, [a], Act(c, a, st, sid), st, sid)
  {
    assert IsPath([c, Act(c, a, st, sid)], [a], st, sid);
  }

  lemma LeadsThen(c: Client, a: seq<ClientStep>, mid: Client, b: seq<ClientStep>, c': Client, st: State, sid: string)
    requires Leads(c, a, mid, st, sid) && Leads(mid, b, c', st, sid)
    ensures Leads(c, a + b, c', st, sid)
  {
    var p :| IsPath(p, a, st, sid) && p[0] == c && p[|a|] == mid;
    var q :| IsPath(q, b, st, sid) && q[0] == mid && q[|b|] == c';
    var path := p + q[1..];
    forall i | 0 <= i < |a + b| ensures path[i + 1] == Act(path[i], (a + b)[i], st, sid) {
      if i >= |a| {
        assert path[i] == q[i - |a|] && path[i + 1] == q[i - |a| + 1] && (a + b)[i] == b[i - |a|];
      }
    }
    assert IsPath(path, a + b, st, sid) && path[0] == c && path[|a + b|] == c';
  }

  lemma {:induction false} PathActs(path: seq<Client>, acts: seq<ClientStep>, st: State, sid: string)
    requires IsPath(path, acts, st, sid)
    ensures path[|acts|] == Acts(path[0], acts, st, sid)
    decreases |acts|
  {
    if acts != [] {
      forall i | 0 <= i < |acts| - 1 ensures path[1..][i + 1] == Act(path[1..][i], acts[1..][i], st, sid) {
        assert path[i + 2] == Act(path[i + 1], acts[i + 1], st, sid);
      }
      PathActs(path[1..], acts[1..], st, sid);
    }
  }

  lemma LeadsActs(c: Client, acts: seq<ClientStep>, c': Client, st: State, sid: string)
    requires Leads(c, acts, c', st, sid)
    ensures Acts(c, acts, st, sid) == c'
  {
    var path :| IsPath(path, acts, st, sid) && path[0] == c && path[|acts|] == c';
    PathActs(path, acts, st, sid);
  }

  /** Writing out a batch; after a final one the handler tails, and has said so last. */
  lemma {:induction false} WritesAll(c: Client, st: State, sid: string) returns (acts: seq<ClientStep>, c': Client)
    requires c.phase.Replaying? && c.phase.batch != [] && RunFrom(c.phase.batch, c.phase.lastSeq)
    ensures Leads(c, acts, c', st, sid) && ReplaySteps(acts)
    ensures var n := |c.phase.batch|;
            if c.phase.final then Replayed(c, c', n, c.phase.lastSeq + n)
            else c'.phase == Replaying(c.phase.lastSeq + n, [], false) && Wrote(c, c', n)
    decreases |c.phase.batch|
  {
    c' := Act(c, WriteReplayed, st, sid);
    acts := [WriteReplayed];
    WriteAdvances(c, st, sid);
    LeadsOnce(c, WriteReplayed, st, sid);
    if |c.phase.batch| > 1 {
      var next := c';
      var rest;
      rest, c' := WritesAll(next, st, sid);
      LeadsThen(c, [WriteReplayed], next, rest, c', st, sid);
      acts := [WriteReplayed] + rest;
    }
  }

  /** The handler has replayed `n` numbers up to the counter, tails, and has said so last. */
  predicate Replayed(c: Client, c': Client, n: nat, counter: int) {
    c'.phase == Tailing(counter) && Wrote(c, c', n + 1) && c'.wire[|c'.wire| - 1] == ReadyFrame(counter)
  }

  lemma ReplayedThen(c: Client, mid: Client, c': Client, m: nat, n: nat, counter: int)
    requires Wrote(c, mid, m) && Replayed(mid, c', n, counter)
    ensures Replayed(c, c', m + n, counter)
  {
  }

  /** One batch, or none at the end of the log. */
  lemma NextBatch(c: Client, st: State, sid: string, cursor: int) returns (acts: seq<ClientStep>, c': Client)
    requires Valid(st) && sid != "" && IsTrimmed(sid) && c.phase == Replaying(cursor, [], false)
    requires Counter(st, sid) - |Of(st.events, sid)| <= cursor <= Counter(st, sid)
    ensures Leads(c, acts, c', st, sid) && ReplaySteps(acts)
    ensures var n: nat := Counter(st, sid) - cursor;
            if n < STREAM_BATCH then Replayed(c, c', n, Counter(st, sid))
            else c'.phase == Replaying(cursor + STREAM_BATCH, [], false) && Wrote(c, c', STREAM_BATCH)
  {
    c' := Act(c, Fetch, st, sid);
    acts := [Fetch];
    FetchAdvances(c, st, sid, cursor);
    LeadsOnce(c, Fetch, st, sid);
    if cursor < Counter(st, sid) {
      var fetched := c';
      var rest;
      rest, c' := WritesAll(fetched, st, sid);
      LeadsThen(c, [Fetch], fetched, rest, c', st, sid);
      acts := [Fetch] + rest;
    }
  }

  /** The replay ends tailing at the end of the log, with one frame for each event and the one that says so. */
  lemma {:induction false} ReplaysAll(c: Client, st: State, sid: string, cursor: int)
    returns (acts: seq<ClientStep>, c': Client)
    requires Valid(st) && sid != "" && IsTrimmed(sid) && c.phase == Replaying(cursor, [], false)
    requires Counter(st, sid) - |Of(st.events, sid)| <= cursor <= Counter(st, sid)
    ensures Leads(c, acts, c', st, sid) && ReplaySteps(acts)
    ensures Replayed(c, c', Counter(st, sid) - cursor, Counter(st, sid))
    decreases Counter(st, sid) - cursor
  {
    acts, c' := NextBatch(c, st, sid, cursor);
    if STREAM_BATCH <= Counter(st, sid) - cursor {
      var batch, next := acts, c';
      var rest;
      rest, c' := ReplaysAll(next, st, sid, cursor + STREAM_BATCH);
      LeadsThen(c, batch, next, rest, c', st, sid);
      ReplayedThen(c, next, c', STREAM_BATCH, Counter(st, sid) - cursor - STREAM_BATCH, Counter(st, sid));
      acts := batch + rest;
    }
  }

  lemma {:induction false} ReadsAll(c: Client, st: State, sid: string) returns (c': Client)
    ensures Leads(c, Times(|c.wire|, Read), c', st, sid) && c'.wire == [] && c'.phase == c.phase
    decreases |c.wire|
  {
    if c.wire == [] {
      c' := c;
      LeadsNowhere(c, st, sid);
    } else {
      var next := Act(c, Read, st, sid);
      LeadsOnce(c, Read, st, sid);
      c' := ReadsAll(next, st, sid);
      LeadsThen(c, [Read], next, Times(|c.wire| - 1, Read), c', st, sid);
    }
  }

  // ----- a client can always catch up -----

  /** A client's own steps: leave the connection it has, connect, let the handler replay, read all there is. */
  ghost predicate CatchingUp(acts: seq<ClientStep>, how: Resume, count: nat) {
    exists replay :: ReplaySteps(replay) && acts == [Cut(0), Connect(how)] + replay + Times(count, Read)
  }

  lemma CutFrees(c: Client, st: State, sid: string)
    ensures Act(c, Cut(0), st, sid).phase == Gone && Act(c, Cut(0), st, sid).report == c.report
    ensures Act(c, Cut(0), st, sid).start == c.start
  {
  }

  lemma ConnectStarts(c: Client, how: Resume, st: State, sid: string)
    requires c.phase == Gone && 0 <= c.start <= c.report.lastSeq <= MAX_INT64
    ensures var c' := Act(c, Connect(how), st, sid);
            c'.phase == Replaying(c.report.lastSeq, [], false) && c'.channel == Channel([], true) && c'.wire == []
  {
    RequestResumes(c, how);
  }

  lemma Reconnects(c: Client, how: Resume, st: State, sid: string) returns (c': Client)
    requires 0 <= c.start <= c.report.lastSeq <= MAX_INT64
    ensures Leads(c, [Cut(0), Connect(how)], c', st, sid)
    ensures c'.phase == Replaying(c.report.lastSeq, [], false) && c'.wire == []
  {
    var cut := Act(c, Cut(0), st, sid);
    c' := Act(cut, Connect(how), st, sid);
    CutFrees(c, st, sid);
    ConnectStarts(cut, how, st, sid);
    LeadsOnce(c, Cut(0), st, sid);
    LeadsOnce(cut, Connect(how), st, sid);
    LeadsThen(c, [Cut(0)], cut, [Connect(how)], c', st, sid);
    assert [Cut(0)] + [Connect(how)] == [Cut(0), Connect(how)];
  }

  lemma CatchesUpAlone(c: Client, st: State, sid: string, how: Resume) returns (acts: seq<ClientStep>, c': Client)
    requires Valid(st) && sid != "" && IsTrimmed(sid) && 0 <= c.start <= c.report.lastSeq <= MAX_INT64
    requires Counter(st, sid) - |Of(st.events, sid)| <= c.report.lastSeq <= Counter(st, sid)
    ensures CatchingUp(acts, how, Counter(st, sid) - c.report.lastSeq + 1) && Leads(c, acts, c', st, sid)
    ensures c'.phase == Tailing(Counter(st, sid)) && c'.wire == []
  {
    var connected := Reconnects(c, how, st, sid);
    var replay, replayed := ReplaysAll(connected, st, sid, c.report.lastSeq);
    c' := ReadsAll(replayed, st, sid);
    LeadsThen(c, [Cut(0), Connect(how)], connected, replay, replayed, st, sid);
    LeadsThen(c, [Cut(0), Connect(how)] + replay, replayed, Times(|replayed.wire|, Read), c', st, sid);
    acts := [Cut(0), Connect(how)] + replay + Times(|replayed.wire|, Read);
  }

  /** Runs of one client's steps, batches included, are orderly while nothing above its cursor is evicted. */
  lemma {:induction false} OwnSteps(s: System, acts: seq<ClientStep>, k: nat)
    requires Synced(s) && k in s.clients
    requires Counter(s.store, s.sid) - |Of(s.store.events, s.sid)| <= s.clients[k].report.lastSeq
    ensures OrderlyRun(s, StepsOf(acts, k)) && k in Stream.Run(s, StepsOf(acts, k)).clients
    ensures Stream.Run(s, StepsOf(acts, k)).clients[k] == Acts(s.clients[k], acts, s.store, s.sid)
    decreases |acts|
  {
    if acts != [] {
      var a := ClientStep(k, acts[0]);
      OwnStep(s, acts[0], k);
      OwnSteps(Next(s, a), acts[1..], k);
      RunPrepend(s, a, StepsOf(acts[1..], k));
    }
  }

  lemma OwnStep(s: System, act: ClientStep, k: nat)
    requires Synced(s) && k in s.clients
    requires Counter(s.store, s.sid) - |Of(s.store.events, s.sid)| <= s.clients[k].report.lastSeq
    ensures var s' := Next(s, ClientStep(k, act));
            && Orderly(s, ClientStep(k, act)) && Synced(s') && s'.store == s.store && s'.sid == s.sid
            && k in s'.clients && s'.clients[k] == Act(s.clients[k], act, s.store, s.sid)
            && s.clients[k].report.lastSeq <= s'.clients[k].report.lastSeq
  {
    var c := s.clients[k];
    assert ClientOk(c, Counter(s.store, s.sid), Published(s));
    CursorIsBelow(c);
    NextClient(s, ClientStep(k, act), k);
    NextKeepsSynced(s, ClientStep(k, act));
    CursorGrows(c, act, s.store, s.sid, Counter(s.store, s.sid));
  }

  lemma CursorIsBelow(c: Client)
    requires Consecutive(c.wire, c.report.lastSeq)
    ensures c.report.lastSeq <= CursorAfter(c.wire, c.report.lastSeq)
  {
    ConsecutivePrefix(c.wire, c.report.lastSeq, |c.wire|);
    assert c.wire[..|c.wire|] == c.wire;
  }

  lemma CursorGrows(c: Client, a: ClientStep, st: State, sid: string, counter: int)
    requires AuditOk(c, counter) && AuditOk(Act(c, a, st, sid), counter)
    ensures c.report.lastSeq <= Act(c, a, st, sid).report.lastSeq
  {
  }

  /** The run is orderly, the client's handler tails at the counter, and the client has read all up to it. */
  ghost predicate CaughtUp(s: System, steps: seq<Step>, k: nat)
    requires Valid(s.store) && k in s.clients
  {
    && OrderlyRun(s, steps) && k in Stream.Run(s, steps).clients
    && var c := Stream.Run(s, steps).clients[k];
       && c.phase == Tailing(Counter(s.store, s.sid)) && c.wire == []
       && c.start == s.clients[k].start && c.start + |c.got| == Counter(s.store, s.sid)
  }

  /** From any state in step, unless something above its cursor was evicted, a client can catch up on its own,
      however it names its cursor: it leaves its connection, connects, and reads the replay; its handler then
      tails, and it has read every number up to the counter. */
  lemma CatchesUp(s: System, k: nat, how: Resume) returns (acts: seq<ClientStep>)
    requires Synced(s) && k in s.clients
    requires Counter(s.store, s.sid) - |Of(s.store.events, s.sid)| <= s.clients[k].report.lastSeq
    ensures s.clients[k].report.lastSeq <= Counter(s.store, s.sid)
    ensures CatchingUp(acts, how, Counter(s.store, s.sid) - s.clients[k].report.lastSeq + 1)
    ensures CaughtUp(s, StepsOf(acts, k), k)
  {
    CursorIsGivenOut(s, k);
    var c;
    acts, c := CatchesUpAlone(s.clients[k], s.store, s.sid, how);
    ReachesTheEnd(s, acts, k, c);
  }

  lemma CursorIsGivenOut(s: System, k: nat)
    requires Synced(s) && k in s.clients
    ensures Valid(s.store) && s.sid != "" && IsTrimmed(s.sid)
    ensures 0 <= s.clients[k].start <= s.clients[k].report.lastSeq <= Counter(s.store, s.sid) <= MAX_INT64
  {
    assert ClientOk(s.clients[k], Counter(s.store, s.sid), Published(s));
  }

  /** Tailing at the counter with nothing on the wire means having read everything. */
  lemma ReachesTheEnd(s: System, acts: seq<ClientStep>, k: nat, end: Client)
    requires Synced(s) && k in s.clients
    requires Counter(s.store, s.sid) - |Of(s.store.events, s.sid)| <= s.clients[k].report.lastSeq
    requires Leads(s.clients[k], acts, end, s.store, s.sid)
    requires end.phase == Tailing(Counter(s.store, s.sid)) && end.wire == []
    ensures CaughtUp(s, StepsOf(acts, k), k)
  {
    var steps := StepsOf(acts, k);
    LeadsActs(s.clients[k], acts, end, s.store, s.sid);
    OwnSteps(s, acts, k);
    RunKeepsSynced(s, steps);
    StartIsFixed(s, steps, k);
    var t := Stream.Run(s, steps);
    assert ClientOk(t.clients[k], Counter(t.store, t.sid), Published(t));
  }

  // ----- a tailing client follows -----

  /** Everything is published, and the handler has sent all of it. */
  ghost predicate Followed(s: System, k: nat) {
    && s.unpublished == [] && k in s.clients
    && s.clients[k].phase == Tailing(Counter(s.store, s.sid)) && s.clients[k].channel == Channel([], true)
  }

  lemma NothingToFollow(s: System, k: nat)
    requires Synced(s) && k in s.clients && s.unpublished == []
    requires s.clients[k].phase.Tailing? && s.clients[k].channel == Channel([], true)
    ensures Followed(s, k)
  {
    assert ClientOk(s.clients[k], Counter(s.store, s.sid), Published(s));
  }

  /** The next step towards it: a receive, or into an empty channel the next publish. */
  lemma FollowStep(s: System, k: nat) returns (a: Step)
    requires Synced(s) && k in s.clients && s.clients[k].phase.Tailing? && s.clients[k].channel.open
    requires s.unpublished != [] || s.clients[k].channel.buffer != []
    ensures Orderly(s, a) && Synced(Next(s, a)) && k in Next(s, a).clients
    ensures var c, c' := s.clients[k], Next(s, a).clients[k];
            && c'.phase.Tailing? && c'.channel.open
            && if c.channel.buffer != [] then
                 Next(s, a).unpublished == s.unpublished && |c'.channel.buffer| < |c.channel.buffer|
               else |Next(s, a).unpublished| < |s.unpublished|
  {
    a := if s.clients[k].channel.buffer != [] then ClientStep(k, Receive) else PublishStep(0);
    NextClient(s, a, k);
    NextKeepsSynced(s, a);
  }

  /** From any state in step, while its channel stays open, a tailing client follows: publishing in order and
      receiving brings it everything up to the counter. */
  lemma {:induction false} Follows(s: System, k: nat) returns (steps: seq<Step>)
    requires Synced(s) && k in s.clients && s.clients[k].phase.Tailing? && s.clients[k].channel.open
    ensures OrderlyRun(s, steps) && Followed(Stream.Run(s, steps), k)
    decreases |s.unpublished|, |s.clients[k].channel.buffer|
  {
    if s.unpublished == [] && s.clients[k].channel.buffer == [] {
      steps := [];
      NothingToFollow(s, k);
    } else {
      var a := FollowStep(s, k);
      steps := Follows(Next(s, a), k);
      RunPrepend(s, a, steps);
      steps := [a] + steps;
    }
  }

  // ----- a closed channel -----

  /** What a tailing handler still sends from its channel. */
  lemma {:induction false} DrainsAll(c: Client, st: State, sid: string) returns (c': Client)
    requires c.phase.Tailing?
    ensures Leads(c, Times(|c.channel.buffer|, Receive), c', st, sid)
    ensures c'.phase == Tailing(Drained(c.channel.buffer, c.phase.lastSeq))
    ensures c'.channel == Channel([], c.channel.open) && c.wire <= c'.wire
    decreases |c.channel.buffer|
  {
    if c.channel.buffer == [] {
      c' := c;
      LeadsNowhere(c, st, sid);
    } else {
      var next := Act(c, Receive, st, sid);
      LeadsOnce(c, Receive, st, sid);
      c' := DrainsAll(next, st, sid);
      LeadsThen(c, [Receive], next, Times(|c.channel.buffer| - 1, Receive), c', st, sid);
    }
  }

  /** A tailing handler whose channel was closed sends what the channel still holds, then a reset that names its
      cursor, and ends. */
  lemma ClosedChannelResets(c: Client, st: State, sid: string) returns (c': Client)
    requires c.phase.Tailing? && !c.channel.open
    ensures Leads(c, Times(|c.channel.buffer|, Receive) + [Receive], c', st, sid)
    ensures c'.phase == Gone && c.wire < c'.wire
    ensures c'.wire[|c'.wire| - 1] == ResetFrame(Drained(c.channel.buffer, c.phase.lastSeq))
  {
    var drained := DrainsAll(c, st, sid);
    c' := Act(drained, Receive, st, sid);
    LeadsOnce(drained, Receive, st, sid);
    LeadsThen(c, Times(|c.channel.buffer|, Receive), drained, [Receive], c', st, sid);
  }

  /** A heartbeat names the handler's cursor and changes nothing else. */
  lemma BeatSaysWhere(c: Client, st: State, sid: string)
    ensures Act(c, Beat, st, sid) ==
            if c.phase.Tailing? then c.(wire := c.wire + [HeartbeatFrame(c.phase.lastSeq)]) else c
  {
  }

  /** A lost connection: some of what was sent may still arrive, from the front and nothing else; the handler ends
      and its channel leaves the table. Without a connection there is nothing to lose. */
  lemma CutEnds(c: Client, keep: nat, st: State, sid: string)
    ensures var c' := Act(c, Cut(keep), st, sid);
            && c'.phase == Gone && c'.wire <= c.wire && (c.phase != Gone ==> !c'.channel.open)
            && (c.phase != Gone ==> |c'.wire| == Least(keep, |c.wire|)) && (c.phase == Gone ==> c' == c)
            && c'.report == c.report && c'.got == c.got
  {
  }

  // ----- frames and cursors -----

  /** What the frames are called, and that only event frames carry an id, which is their number. */
  lemma FramesAreNamed(f: Frame)
    ensures match f
            case EventFrame(e) => Shown(f).event == "session.event" && Shown(f).id == FormatInt(e.seqNo)
            case ReadyFrame(_) => Shown(f).event == "session.ready" && Shown(f).id == ""
            case HeartbeatFrame(_) => Shown(f).event == "heartbeat" && Shown(f).id == ""
            case ResetFrame(_) => Shown(f).event == "session.reset" && Shown(f).id == ""
  {
  }

  /** A request is refused exactly for an unreadable query cursor, and otherwise resumes at the later of the query's
      cursor, 0 when blank, and the header's, 0 when unreadable. */
  lemma LaterCursorWins(query: string, header: string)
    ensures var r := ResolveCursor(query, header);
            && (r == None <==> TrimSpace(query) != "" && ParseCursor(query) == None)
            && (r.Some? ==>
                  var named := if TrimSpace(query) == "" then 0 else ParseCursor(query).value;
                  var resumed := if ParseCursor(header).Some? then ParseCursor(header).value else 0;
                  r.value in {named, resumed} && named <= r.value && resumed <= r.value)
  {
  }

  // ----- the store and the publishes -----

  /** An event whose save failed stays in the log in memory and is never published; a saved one waits to be, last. */
  lemma OnlySavedIsPublished(s: System, event: SessionEvent, saved: bool)
    requires Valid(s.store) && AppendEvent(s.store, event).Ok?
    ensures var s', (st, stored) := Next(s, AppendStep(event, saved)), AppendEvent(s.store, event).value;
            && s'.store == st && s'.clients == s.clients
            && (stored.sessionID == s.sid ==> stored in s'.appended)
            && s'.unpublished == s.unpublished + if saved && stored.sessionID == s.sid then [stored] else []
  {
  }

  /** The stream's steps do to the store what the store's own operations do. */
  lemma StoreStepsAgree(s: System, a: Step, disk: State, issued: map<string, set<int>>)
    requires Valid(s.store)
    ensures var w := World(s.store, disk, issued);
            match a
            case AppendStep(event, saved) => Next(s, a).store == SessionLog.Step(w, Append(event, saved)).mem
            case DeleteStep(id) => Next(s, a).store == SessionLog.Step(w, Delete(id, true)).mem
            case RetentionStep(limit) => Next(s, a).store == SessionLog.Step(w, SetRetention(limit, true)).mem
            case _ => Next(s, a).store == s.store
  {
  }

  /** A publish takes one event and offers it to every client; closing the streams closes every channel. */
  lemma PublishOffersToAll(s: System, i: nat, k: nat)
    requires Valid(s.store) && i < |s.unpublished| && k in s.clients
    ensures var s', e := Next(s, PublishStep(i)), s.unpublished[i];
            && s'.unpublished == s.unpublished[..i] + s.unpublished[i + 1..]
            && k in s'.clients
            && k in Next(s, CloseStreamsStep).clients && !Next(s, CloseStreamsStep).clients[k].channel.open
            && Next(s, CloseStreamsStep).clients[k].channel.buffer == s.clients[k].channel.buffer
            && var c, c' := s.clients[k], s'.clients[k];
               && (c.channel.open && |c.channel.buffer| < STREAM_BUFFER ==>
                     c' == c.(channel := Channel(c.channel.buffer + [e], true)))
               && (c.channel.open && |c.channel.buffer| >= STREAM_BUFFER ==>
                     c' == c.(channel := Channel(c.channel.buffer, false)))
               && (!c.channel.open ==> c' == c)
  {
  }
}
