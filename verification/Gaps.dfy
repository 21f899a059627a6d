/** When a client stays without gaps, whatever the order of the publishes so far: the exact condition on its
    channel and on the events that are still to be published. */
module Gaps {
  import opened Text
  import opened Decimal
  import opened SessionLog
  import opened Stream
  import opened PublishOrder

  // ----- what a handler at a cursor makes of a queue -----

  function Up(cursor: int, n: int): int {
    if n <= cursor then cursor else n
  }

  /** A handler at `cursor` that skips what is not above it sends the queue without a gap. */
  predicate Flows(q: seq<SessionEvent>, cursor: int) {
    q == [] || (q[0].seqNo <= cursor + 1 && Flows(q[1..], Up(cursor, q[0].seqNo)))
  }

  /** Its cursor afterwards. */
  function Drained(q: seq<SessionEvent>, cursor: int): int {
    if q == [] then cursor else Drained(q[1..], Up(cursor, q[0].seqNo))
  }

  predicate UpTo(q: seq<SessionEvent>, n: int) {
    forall i | 0 <= i < |q| :: q[i].seqNo <= n
  }

  lemma {:induction false} FlowsConcat(a: seq<SessionEvent>, b: seq<SessionEvent>, cursor: int)
    ensures Flows(a + b, cursor) <==> Flows(a, cursor) && Flows(b, Drained(a, cursor))
    ensures Drained(a + b, cursor) == Drained(b, Drained(a, cursor))
    decreases |a|
  {
    if a == [] {
      assert a + b == b;
    } else {
      assert (a + b)[1..] == a[1..] + b;
      FlowsConcat(a[1..], b, Up(cursor, a[0].seqNo));
    }
  }

  lemma {:induction false} FlowsBelow(q: seq<SessionEvent>, cursor: int)
    requires UpTo(q, cursor)
    ensures Flows(q, cursor) && Drained(q, cursor) == cursor
  {
    if q != [] { FlowsBelow(q[1..], cursor); }
  }

  lemma {:induction false} FlowsRun(q: seq<SessionEvent>, before: int, cursor: int)
    requires RunFrom(q, before) && before <= cursor
    ensures Flows(q, cursor) && Drained(q, cursor) == Up(cursor, before + |q|)
    decreases |q|
  {
    if q != [] {
      assert q[0].seqNo == before + 1;
      forall i | 0 <= i < |q| - 1 ensures q[1..][i].seqNo == before + 1 + 1 + i { assert q[1..][i] == q[i + 1]; }
      FlowsRun(q[1..], before + 1, Up(cursor, q[0].seqNo));
    }
  }

  lemma FlowsSnoc(q: seq<SessionEvent>, e: SessionEvent, cursor: int)
    ensures Flows(q + [e], cursor) <==> Flows(q, cursor) && e.seqNo <= Drained(q, cursor) + 1
    ensures Drained(q + [e], cursor) == Up(Drained(q, cursor), e.seqNo)
  {
    FlowsConcat(q, [e], cursor);
    assert [e][1..] == [];
  }

  // ----- clients without a gap so far -----

  /** The client has read without a gap, and its wire and its handler's batch go on without one. Nothing is said
      about its channel. */
  ghost predicate Tracked(c: Client, counter: int) {
    && AuditOk(c, counter)
    && Consecutive(c.wire, c.report.lastSeq) && CursorAfter(c.wire, c.report.lastSeq) <= counter
    && (c.phase != Gone ==> UpTo(c.channel.buffer, counter))
    && match c.phase
       case Gone => !c.channel.open
       case Tailing(lastSeq) => lastSeq == CursorAfter(c.wire, c.report.lastSeq)
       case Replaying(lastSeq, batch, final) =>
         && lastSeq == CursorAfter(c.wire, c.report.lastSeq)
         && RunFrom(batch, lastSeq) && lastSeq + |batch| <= counter && (final ==> batch != [])
  }

  /** What the channel brings: its contents, and the events held back while it is open. */
  function Arriving(c: Client, held: seq<SessionEvent>): seq<SessionEvent> {
    if c.channel.open then c.channel.buffer + held else c.channel.buffer
  }

  /** Once the last batch is read, what the channel brings leaves no gap, and while it is open and the numbers
      are not used up, none of the numbers given out is missing at its end. */
  predicate Unbroken(c: Client, held: seq<SessionEvent>, counter: int) {
    Fetched(c) ==>
      && Flows(Arriving(c, held), Reach(c))
      && (c.channel.open && counter < MAX_INT64 ==> counter <= Drained(Arriving(c, held), Reach(c)))
  }

  ghost predicate InStep(s: System, k: nat) {
    && Valid(s.store) && s.sid != "" && IsTrimmed(s.sid)
    && UpTo(s.unpublished, Counter(s.store, s.sid))
    && k in s.clients && Tracked(s.clients[k], Counter(s.store, s.sid))
  }

  // ----- the steps -----

  lemma ConnectTracks(c: Client, how: Resume, st: State, sid: string, counter: int)
    requires Tracked(c, counter)
    ensures var c' := Act(c, Connect(how), st, sid);
            Tracked(c', counter) && (c' == c || !Fetched(c'))
  {
    RequestResumes(c, how);
  }

  /** A short batch reaches the end of the log, so that everything given out is at or below its end. */
  lemma FetchTracks(c: Client, st: State, sid: string)
    requires Valid(st) && sid != "" && IsTrimmed(sid) && Tracked(c, Counter(st, sid))
    requires c.phase.Replaying? ==> Counter(st, sid) - |Of(st.events, sid)| <= c.phase.lastSeq
    ensures var c' := Act(c, Fetch, st, sid);
            && Tracked(c', Counter(st, sid)) && c'.channel == c.channel
            && (c' == c || (Fetched(c') ==> Reach(c') == Counter(st, sid)))
  {
    if c.phase.Replaying? && c.phase.batch == [] && !c.phase.final {
      PageFollowsCursor(st, sid, c.phase.lastSeq, STREAM_BATCH);
      SendKeeps(c, ReadyFrame(c.phase.lastSeq), Counter(st, sid));
    }
  }

  lemma WriteTracks(c: Client, st: State, sid: string, counter: int)
    requires Tracked(c, counter)
    ensures var c' := Act(c, WriteReplayed, st, sid);
            && Tracked(c', counter) && c'.channel == c.channel && c'.start == c.start
            && (Fetched(c') <==> Fetched(c)) && (Fetched(c) ==> Reach(c') == Reach(c))
  {
    if c.phase.Replaying? && c.phase.batch != [] {
      var e := c.phase.batch[0];
      SendKeeps(c, EventFrame(e), counter);
      SendKeeps(Send(c, EventFrame(e)), ReadyFrame(e.seqNo), counter);
    }
  }

  /** Sending the oldest buffered event keeps the client tracked when it leaves no gap. */
  lemma ReceiveTracks(c: Client, st: State, sid: string, counter: int)
    requires Tracked(c, counter) && c.phase.Tailing? && c.channel.buffer != []
    requires c.channel.buffer[0].seqNo <= c.phase.lastSeq + 1
    ensures var c' := Act(c, Receive, st, sid);
            && Tracked(c', counter) && c'.phase == Tailing(Up(c.phase.lastSeq, c.channel.buffer[0].seqNo))
            && c'.channel == Channel(c.channel.buffer[1..], c.channel.open) && c'.start == c.start
  {
    if c.phase.lastSeq < c.channel.buffer[0].seqNo {
      SendKeeps(c, EventFrame(c.channel.buffer[0]), counter);
    }
  }

  lemma ReadTracks(c: Client, st: State, sid: string, counter: int)
    requires Tracked(c, counter)
    ensures var c' := Act(c, Read, st, sid);
            Tracked(c', counter) && c'.channel == c.channel && c'.phase == c.phase
  {
    if c.wire != [] {
      ReadFront(c.wire, c.report.lastSeq);
      AuditReads(c, c.wire[0], counter);
    }
  }

  lemma ReceiveKeepsUnbroken(c: Client, st: State, sid: string, held: seq<SessionEvent>, counter: int)
    requires Tracked(c, counter) && Unbroken(c, held, counter)
    ensures var c' := Act(c, Receive, st, sid); Tracked(c', counter) && Unbroken(c', held, counter)
  {
    if c.phase.Tailing? {
      if c.channel.buffer != [] {
        var q := Arriving(c, held);
        assert q[0] == c.channel.buffer[0];
        ReceiveTracks(c, st, sid, counter);
        assert Arriving(Act(c, Receive, st, sid), held) == q[1..];
      } else if !c.channel.open {
        SendKeeps(c, ResetFrame(c.phase.lastSeq), counter);
      }
    }
  }

  lemma FetchKeepsUnbroken(c: Client, st: State, sid: string, held: seq<SessionEvent>)
    requires Valid(st) && sid != "" && IsTrimmed(sid) && Tracked(c, Counter(st, sid))
    requires UpTo(held, Counter(st, sid)) && Unbroken(c, held, Counter(st, sid))
    requires c.phase.Replaying? ==> Counter(st, sid) - |Of(st.events, sid)| <= c.phase.lastSeq
    ensures var c' := Act(c, Fetch, st, sid);
            Tracked(c', Counter(st, sid)) && Unbroken(c', held, Counter(st, sid))
  {
    FetchTracks(c, st, sid);
    if c.phase != Gone { FlowsBelow(Arriving(c, held), Counter(st, sid)); }
  }

  lemma CutTracks(c: Client, keep: nat, st: State, sid: string, counter: int)
    requires Tracked(c, counter)
    ensures Tracked(Act(c, Cut(keep), st, sid), counter) && !Fetched(Act(c, Cut(keep), st, sid))
  {
    if keep <= |c.wire| { ConsecutivePrefix(c.wire, c.report.lastSeq, keep); }
  }

  lemma BeatTracks(c: Client, st: State, sid: string, counter: int)
    requires Tracked(c, counter)
    ensures var c' := Act(c, Beat, st, sid);
            Tracked(c', counter) && c'.channel == c.channel && c'.phase == c.phase
  {
    if c.phase.Tailing? { SendKeeps(c, HeartbeatFrame(c.phase.lastSeq), counter); }
  }

  lemma ActKeepsUnbroken(c: Client, a: ClientStep, st: State, sid: string, held: seq<SessionEvent>)
    requires Valid(st) && sid != "" && IsTrimmed(sid) && Tracked(c, Counter(st, sid))
    requires UpTo(held, Counter(st, sid)) && Unbroken(c, held, Counter(st, sid))
    requires a == Fetch && c.phase.Replaying? ==> Counter(st, sid) - |Of(st.events, sid)| <= c.phase.lastSeq
    ensures var c' := Act(c, a, st, sid);
            Tracked(c', Counter(st, sid)) && Unbroken(c', held, Counter(st, sid))
  {
    match a
    case Connect(how) => ConnectTracks(c, how, st, sid, Counter(st, sid));
    case Fetch => FetchKeepsUnbroken(c, st, sid, held);
    case WriteReplayed => WriteTracks(c, st, sid, Counter(st, sid));
    case Receive => ReceiveKeepsUnbroken(c, st, sid, held, Counter(st, sid));
    case Beat => BeatTracks(c, st, sid, Counter(st, sid));
    case Cut(keep) => CutTracks(c, keep, st, sid, Counter(st, sid));
    case Read => ReadTracks(c, st, sid, Counter(st, sid));
  }

  lemma CloseKeepsUnbroken(c: Client, held: seq<SessionEvent>, counter: int)
    requires Tracked(c, counter) && Unbroken(c, held, counter)
    ensures Tracked(CloseChannel(c), counter) && Unbroken(CloseChannel(c), held, counter)
  {
    if Fetched(c) && c.channel.open { FlowsConcat(c.channel.buffer, held, Reach(c)); }
  }

  /** The oldest event that is held back moves into the channel, or closes it. */
  lemma DeliverKeepsUnbroken(c: Client, held: seq<SessionEvent>, counter: int)
    requires Tracked(c, counter) && held != [] && UpTo(held, counter) && Unbroken(c, held, counter)
    ensures Tracked(Deliver(c, held[0]), counter) && Unbroken(Deliver(c, held[0]), held[1..], counter)
  {
    if c.channel.open && |c.channel.buffer| < STREAM_BUFFER {
      assert c.channel.buffer + [held[0]] + held[1..] == c.channel.buffer + held;
    } else {
      CloseKeepsUnbroken(c, held, counter);
    }
  }

  lemma MoreKeepsUnbroken(c: Client, held: seq<SessionEvent>, e: SessionEvent, counter: int)
    requires Tracked(c, counter) && Unbroken(c, held, counter) && e.seqNo == counter + 1 <= MAX_INT64
    ensures Tracked(c, counter + 1) && Unbroken(c, held + [e], counter + 1)
  {
    if Fetched(c) && c.channel.open {
      FlowsSnoc(c.channel.buffer + held, e, Reach(c));
      assert c.channel.buffer + held + [e] == c.channel.buffer + (held + [e]);
    }
  }

  // ----- every orderly continuation -----

  ghost predicate Flowing(s: System, k: nat) {
    InStep(s, k) && Unbroken(s.clients[k], s.unpublished, Counter(s.store, s.sid))
  }

  lemma AppendKeepsFlowing(s: System, event: SessionEvent, saved: bool, k: nat)
    requires Flowing(s, k) && Orderly(s, AppendStep(event, saved))
    ensures Flowing(Next(s, AppendStep(event, saved)), k)
  {
    if AppendEvent(s.store, event).Ok? {
      AppendMovesCounter(s.store, event, s.sid);
      var stored := AppendEvent(s.store, event).value.1;
      if stored.sessionID == s.sid {
        MoreKeepsUnbroken(s.clients[k], s.unpublished, stored, Counter(s.store, s.sid));
      }
    }
  }

  lemma PublishKeepsFlowing(s: System, k: nat)
    requires Flowing(s, k)
    ensures Flowing(Next(s, PublishStep(0)), k)
  {
    if s.unpublished != [] {
      assert s.unpublished[..0] + s.unpublished[1..] == s.unpublished[1..];
      NextClient(s, PublishStep(0), k);
      DeliverKeepsUnbroken(s.clients[k], s.unpublished, Counter(s.store, s.sid));
    }
  }

  lemma StoreKeepsFlowing(s: System, s': System, k: nat)
    requires Flowing(s, k) && s' == s.(store := s'.store)
    requires Valid(s'.store) && Counter(s'.store, s.sid) == Counter(s.store, s.sid)
    ensures Flowing(s', k)
  {
  }

  lemma CloseStreamsKeepsFlowing(s: System, k: nat)
    requires Flowing(s, k)
    ensures Flowing(Next(s, CloseStreamsStep), k)
  {
    CloseKeepsUnbroken(s.clients[k], s.unpublished, Counter(s.store, s.sid));
  }

  lemma ClientKeepsFlowing(s: System, j: nat, act: ClientStep, k: nat)
    requires Flowing(s, k) && Orderly(s, ClientStep(j, act))
    ensures Flowing(Next(s, ClientStep(j, act)), k)
  {
    NextClient(s, ClientStep(j, act), k);
    if j == k { ActKeepsUnbroken(s.clients[k], act, s.store, s.sid, s.unpublished); }
  }

  lemma NextKeepsFlowing(s: System, a: Step, k: nat)
    requires Flowing(s, k) && Orderly(s, a)
    ensures Flowing(Next(s, a), k)
  {
    match a
    case AppendStep(event, saved) => AppendKeepsFlowing(s, event, saved, k);
    case PublishStep(i) => PublishKeepsFlowing(s, k);
    case DeleteStep(id) =>
      DeleteKeepsValid(s.store, TrimSpace(id));
      StoreKeepsFlowing(s, Next(s, a), k);
    case CloseStreamsStep => CloseStreamsKeepsFlowing(s, k);
    case RetentionStep(limit) =>
      RetentionKeepsValid(s.store, limit);
      StoreKeepsFlowing(s, Next(s, a), k);
    case ClientStep(j, act) => ClientKeepsFlowing(s, j, act, k);
  }

  lemma {:induction false} RunKeepsFlowing(s: System, steps: seq<Step>, k: nat)
    requires Flowing(s, k) && OrderlyRun(s, steps)
    ensures Flowing(Stream.Run(s, steps), k)
    decreases |steps|
  {
    if steps != [] {
      var n := |steps| - 1;
      RunKeepsFlowing(s, steps[..n], k);
      NextKeepsFlowing(Stream.Run(s, steps[..n]), steps[n], k);
    }
  }

  /** The client has read exactly the numbers right above `start`. */
  predicate GapFree(c: Client, start: int) {
    forall j | 0 <= j < |c.got| :: c.got[j] == start + 1 + j
  }

  ghost predicate AlwaysGapFree(s: System, k: nat, start: int)
    requires Valid(s.store)
  {
    forall steps | OrderlyRun(s, steps) && k in Stream.Run(s, steps).clients ::
      GapFree(Stream.Run(s, steps).clients[k], start)
  }

  lemma {:induction false} StartIsFixed(s: System, steps: seq<Step>, k: nat)
    requires Valid(s.store) && k in s.clients
    ensures k in Stream.Run(s, steps).clients && Stream.Run(s, steps).clients[k].start == s.clients[k].start
    decreases |steps|
  {
    if steps != [] {
      StartIsFixed(s, steps[..|steps| - 1], k);
      NextClient(Stream.Run(s, steps[..|steps| - 1]), steps[|steps| - 1], k);
    }
  }

  lemma FlowingIsGapFree(s: System, k: nat)
    requires Flowing(s, k)
    ensures AlwaysGapFree(s, k, s.clients[k].start)
  {
    forall steps | OrderlyRun(s, steps) && k in Stream.Run(s, steps).clients
      ensures GapFree(Stream.Run(s, steps).clients[k], s.clients[k].start)
    {
      StartIsFixed(s, steps, k);
      RunKeepsFlowing(s, steps, k);
    }
  }

  // ----- a broken channel ends in a gap -----

  lemma RunSnoc(s: System, steps: seq<Step>, last: Step)
    requires Valid(s.store)
    ensures Stream.Run(s, steps + [last]) == Next(Stream.Run(s, steps), last)
    ensures OrderlyRun(s, steps + [last]) <==> OrderlyRun(s, steps) && Orderly(Stream.Run(s, steps), last)
  {
    assert (steps + [last])[..|steps|] == steps;
  }

  /** Two runs into one state go on alike. */
  lemma RunBoth(s: System, steps: seq<Step>, s': System, steps': seq<Step>, last: Step)
    requires Valid(s.store) && Valid(s'.store) && Stream.Run(s, steps) == Stream.Run(s', steps')
    ensures Stream.Run(s, steps + [last]) == Stream.Run(s', steps' + [last])
    ensures OrderlyRun(s, steps) == OrderlyRun(s', steps') ==>
              OrderlyRun(s, steps + [last]) == OrderlyRun(s', steps' + [last])
    ensures OrderlyRun(s, steps + [last]) ==> OrderlyRun(s, steps)
  {
    RunSnoc(s, steps, last);
    RunSnoc(s', steps', last);
  }

  lemma {:induction false} RunPrepend(s: System, a: Step, steps: seq<Step>)
    requires Valid(s.store)
    ensures Valid(Next(s, a).store)
    ensures Stream.Run(s, [a] + steps) == Stream.Run(Next(s, a), steps)
    ensures OrderlyRun(s, [a] + steps) <==> Orderly(s, a) && OrderlyRun(Next(s, a), steps)
    decreases |steps|
  {
    NextKeepsValid(s, a);
    if steps == [] {
      RunSnoc(s, [], a);
      assert [] + [a] == [a] + steps;
    } else {
      var front, last := steps[..|steps| - 1], steps[|steps| - 1];
      assert [a] + front + [last] == [a] + steps && front + [last] == steps;
      RunPrepend(s, a, front);
      RunBoth(s, [a] + front, Next(s, a), front, last);
    }
  }

  lemma GapNow(s: System, k: nat, start: int)
    requires Valid(s.store) && k in s.clients && !GapFree(s.clients[k], start)
    ensures !AlwaysGapFree(s, k, start)
  {
    assert OrderlyRun(s, []) && Stream.Run(s, []) == s;
  }

  /** A gap after one more step is a gap ahead. */
  lemma GapLater(s: System, a: Step, k: nat, start: int)
    requires Valid(s.store) && Orderly(s, a) && Valid(Next(s, a).store) && !AlwaysGapFree(Next(s, a), k, start)
    ensures !AlwaysGapFree(s, k, start)
  {
    var steps :| OrderlyRun(Next(s, a), steps) && k in Stream.Run(Next(s, a), steps).clients
                 && !GapFree(Stream.Run(Next(s, a), steps).clients[k], start);
    RunPrepend(s, a, steps);
    assert OrderlyRun(s, [a] + steps);
  }

  /** An event beyond the next number at the end of the wire will be read. */
  lemma {:induction false} WireGap(s: System, k: nat, front: seq<Frame>, e: SessionEvent, counter: int)
    requires Valid(s.store) && k in s.clients && s.clients[k].wire == front + [EventFrame(e)]
    requires var c := s.clients[k];
             && AuditOk(c, counter) && Consecutive(front, c.report.lastSeq)
             && CursorAfter(front, c.report.lastSeq) <= counter
             && CursorAfter(front, c.report.lastSeq) + 1 < e.seqNo
    ensures !AlwaysGapFree(s, k, s.clients[k].start)
    decreases |front|
  {
    var c, read := s.clients[k], ClientStep(k, Read);
    NextClient(s, read, k);
    var c' := Next(s, read).clients[k];
    if front == [] {
      assert c'.got[|c.got|] == e.seqNo;
      GapNow(Next(s, read), k, c.start);
    } else {
      ReadFront(front, c.report.lastSeq);
      AuditReads(c, front[0], counter);
      assert c'.wire == front[1..] + [EventFrame(e)];
      WireGap(Next(s, read), k, front[1..], e, counter);
    }
    GapLater(s, read, k, c.start);
  }

  lemma SendGap(s: System, k: nat)
    requires InStep(s, k)
    requires var c := s.clients[k];
             c.phase.Tailing? && c.channel.buffer != [] && c.phase.lastSeq + 1 < c.channel.buffer[0].seqNo
    ensures !AlwaysGapFree(s, k, s.clients[k].start)
  {
    var c, receive := s.clients[k], ClientStep(k, Receive);
    NextClient(s, receive, k);
    WireGap(Next(s, receive), k, c.wire, c.channel.buffer[0], Counter(s.store, s.sid));
    GapLater(s, receive, k, c.start);
  }

  /** A publish in any order keeps every client in step. */
  lemma PublishKeepsInStep(s: System, i: nat, k: nat)
    requires InStep(s, k)
    ensures InStep(Next(s, PublishStep(i)), k)
  {
    NextClient(s, PublishStep(i), k);
  }

  lemma DeliverArrives(c: Client, held: seq<SessionEvent>)
    requires c.channel == Channel([], true) && held != []
    ensures var c' := Deliver(c, held[0]);
            c'.channel == Channel([held[0]], true) && Arriving(c', held[1..]) == Arriving(c, held)
  {
    assert [] + [held[0]] == [held[0]];
    assert [held[0]] + held[1..] == [] + held;
  }

  lemma PublishTakes(s: System)
    requires Valid(s.store) && s.unpublished != []
    ensures Next(s, PublishStep(0)).unpublished == s.unpublished[1..]
  {
    assert s.unpublished[..0] + s.unpublished[1..] == s.unpublished[1..];
  }

  /** Into an empty open channel the next publish moves what arrives next. */
  lemma PublishArrives(s: System, k: nat)
    requires InStep(s, k) && s.clients[k].channel == Channel([], true) && s.unpublished != []
    ensures var c, s' := s.clients[k], Next(s, PublishStep(0));
            && InStep(s', k) && s'.unpublished == s.unpublished[1..]
            && s'.clients[k].phase == c.phase && s'.clients[k].start == c.start
            && Arriving(s'.clients[k], s'.unpublished) == Arriving(c, s.unpublished)
  {
    NextClient(s, PublishStep(0), k);
    PublishKeepsInStep(s, 0, k);
    PublishTakes(s);
    DeliverArrives(s.clients[k], s.unpublished);
  }

  /** Receiving takes the first of what arrives. */
  lemma ReceiveArrives(s: System, k: nat)
    requires InStep(s, k) && s.clients[k].phase.Tailing? && s.clients[k].channel.buffer != []
    requires s.clients[k].channel.buffer[0].seqNo <= s.clients[k].phase.lastSeq + 1
    ensures var c, s' := s.clients[k], Next(s, ClientStep(k, Receive));
            && InStep(s', k) && s'.unpublished == s.unpublished && s'.clients[k].start == c.start
            && s'.clients[k].phase == Tailing(Up(c.phase.lastSeq, c.channel.buffer[0].seqNo))
            && s'.clients[k].channel.buffer == c.channel.buffer[1..]
            && Arriving(c, s.unpublished)[0] == c.channel.buffer[0]
            && Arriving(s'.clients[k], s.unpublished) == Arriving(c, s.unpublished)[1..]
  {
    var c := s.clients[k];
    NextClient(s, ClientStep(k, Receive), k);
    ReceiveTracks(c, s.store, s.sid, Counter(s.store, s.sid));
    assert (c.channel.buffer + s.unpublished)[1..] == c.channel.buffer[1..] + s.unpublished;
  }

  lemma {:induction false} TailGap(s: System, k: nat)
    requires InStep(s, k) && s.clients[k].phase.Tailing?
    requires !Flows(Arriving(s.clients[k], s.unpublished), s.clients[k].phase.lastSeq)
    ensures !AlwaysGapFree(s, k, s.clients[k].start)
    decreases |s.unpublished|, |s.clients[k].channel.buffer|
  {
    var c := s.clients[k];
    if c.channel.buffer == [] {
      PublishArrives(s, k);
      TailGap(Next(s, PublishStep(0)), k);
      GapLater(s, PublishStep(0), k, c.start);
    } else if c.phase.lastSeq + 1 < c.channel.buffer[0].seqNo {
      SendGap(s, k);
    } else {
      ReceiveArrives(s, k);
      TailGap(Next(s, ClientStep(k, Receive)), k);
      GapLater(s, ClientStep(k, Receive), k, c.start);
    }
  }

  lemma {:induction false} FetchedGap(s: System, k: nat)
    requires InStep(s, k) && Fetched(s.clients[k])
    requires !Flows(Arriving(s.clients[k], s.unpublished), Reach(s.clients[k]))
    ensures !AlwaysGapFree(s, k, s.clients[k].start)
    decreases if s.clients[k].phase.Replaying? then |s.clients[k].phase.batch| else 0
  {
    var c, write := s.clients[k], ClientStep(k, WriteReplayed);
    if c.phase.Tailing? {
      TailGap(s, k);
    } else {
      NextClient(s, write, k);
      WriteTracks(c, s.store, s.sid, Counter(s.store, s.sid));
      FetchedGap(Next(s, write), k);
      GapLater(s, write, k, c.start);
    }
  }

  lemma AppendKeepsInStep(s: System, e: SessionEvent, k: nat)
    requires InStep(s, k) && Counter(s.store, s.sid) < MAX_INT64
    requires TrimSpace(e.sessionID) == s.sid && TrimSpace(e.kind) != ""
    ensures var s' := Next(s, AppendStep(e, true));
            && Orderly(s, AppendStep(e, true))
            && InStep(s', k) && s'.clients == s.clients
            && |s'.unpublished| == |s.unpublished| + 1 && s'.unpublished[..|s.unpublished|] == s.unpublished
            && s'.unpublished[|s.unpublished|].seqNo == Counter(s.store, s.sid) + 1
  {
    AppendMovesCounter(s.store, e, s.sid);
  }

  lemma MissingBreaks(c: Client, held: seq<SessionEvent>, e: SessionEvent, counter: int)
    requires Fetched(c) && c.channel.open
    requires Drained(Arriving(c, held), Reach(c)) < counter && e.seqNo == counter + 1
    ensures !Flows(Arriving(c, held + [e]), Reach(c))
  {
    FlowsSnoc(Arriving(c, held), e, Reach(c));
    assert c.channel.buffer + held + [e] == c.channel.buffer + (held + [e]);
  }

  /** A number that is missing at the end of the channel shows once the next event is appended. */
  lemma MissingGap(s: System, k: nat)
    requires InStep(s, k) && Fetched(s.clients[k]) && s.clients[k].channel.open
    requires Counter(s.store, s.sid) < MAX_INT64
    requires Drained(Arriving(s.clients[k], s.unpublished), Reach(s.clients[k])) < Counter(s.store, s.sid)
    ensures !AlwaysGapFree(s, k, s.clients[k].start)
  {
    var c, e := s.clients[k], SessionEvent(s.sid, "", 0, "message", OtherPayload(""));
    assert IsTrimmed("message");
    AppendKeepsInStep(s, e, k);
    var s' := Next(s, AppendStep(e, true));
    var stored := s'.unpublished[|s.unpublished|];
    assert s'.unpublished == s.unpublished + [stored];
    MissingBreaks(c, s.unpublished, stored, Counter(s.store, s.sid));
    FetchedGap(s', k);
    GapLater(s, AppendStep(e, true), k, c.start);
  }

  lemma ActTracks(c: Client, a: ClientStep, st: State, sid: string)
    requires Valid(st) && sid != "" && IsTrimmed(sid) && Tracked(c, Counter(st, sid))
    requires a == Fetch && c.phase.Replaying? ==> Counter(st, sid) - |Of(st.events, sid)| <= c.phase.lastSeq
    requires a == Receive ==> !Skips(c)
    ensures Tracked(Act(c, a, st, sid), Counter(st, sid))
  {
    match a
    case Connect(how) => ConnectTracks(c, how, st, sid, Counter(st, sid));
    case Fetch => FetchTracks(c, st, sid);
    case WriteReplayed => WriteTracks(c, st, sid, Counter(st, sid));
    case Receive =>
      if c.phase.Tailing? && c.channel.buffer != [] {
        ReceiveTracks(c, st, sid, Counter(st, sid));
      } else if c.phase.Tailing? && !c.channel.open {
        SendKeeps(c, ResetFrame(c.phase.lastSeq), Counter(st, sid));
      }
    case Beat => BeatTracks(c, st, sid, Counter(st, sid));
    case Cut(keep) => CutTracks(c, keep, st, sid, Counter(st, sid));
    case Read => ReadTracks(c, st, sid, Counter(st, sid));
  }

  /** The handler's next receive would leave out a number. */
  predicate Skips(c: Client) {
    c.phase.Tailing? && c.channel.buffer != [] && c.phase.lastSeq + 1 < c.channel.buffer[0].seqNo
  }

  /** Orderly, but publishes may come in any order and saves may fail, so that an event is never published. */
  ghost predicate Unordered(s: System, a: Step) {
    match a
    case PublishStep(i) => true
    case AppendStep(event, saved) => Orderly(s, AppendStep(event, true))
    case _ => Orderly(s, a)
  }

  lemma AppendTracks(s: System, event: SessionEvent, saved: bool, k: nat)
    requires InStep(s, k) && Unordered(s, AppendStep(event, saved))
    ensures InStep(Next(s, AppendStep(event, saved)), k)
  {
    if AppendEvent(s.store, event).Ok? { AppendMovesCounter(s.store, event, s.sid); }
  }

  lemma NextKeepsInStep(s: System, a: Step, k: nat)
    requires InStep(s, k) && Unordered(s, a) && (a == ClientStep(k, Receive) ==> !Skips(s.clients[k]))
    ensures InStep(Next(s, a), k)
  {
    NextKeepsValid(s, a);
    NextClient(s, a, k);
    match a
    case AppendStep(event, saved) => AppendTracks(s, event, saved, k);
    case PublishStep(i) => PublishKeepsInStep(s, i, k);
    case DeleteStep(id) => DeleteKeepsValid(s.store, TrimSpace(id));
    case RetentionStep(limit) =>
    case CloseStreamsStep =>
    case ClientStep(j, act) => if j == k { ActTracks(s.clients[k], act, s.store, s.sid); }
  }

  /** A run with publishes in any order, and saves that may fail, in which this client's handler has not skipped a
      number so far. */
  ghost predicate Unskipped(s: System, steps: seq<Step>, k: nat)
    requires Valid(s.store)
  {
    steps != [] ==>
      var t, a := Stream.Run(s, steps[..|steps| - 1]), steps[|steps| - 1];
      && Unskipped(s, steps[..|steps| - 1], k) && Unordered(t, a)
      && (a == ClientStep(k, Receive) && k in t.clients ==> !Skips(t.clients[k]))
  }

  lemma {:induction false} RunKeepsInStep(s: System, steps: seq<Step>, k: nat)
    requires InStep(s, k) && Unskipped(s, steps, k)
    ensures InStep(Stream.Run(s, steps), k)
    decreases |steps|
  {
    if steps != [] {
      var n := |steps| - 1;
      RunKeepsInStep(s, steps[..n], k);
      NextKeepsInStep(Stream.Run(s, steps[..n]), steps[n], k);
    }
  }

  /** A client that has no gap so far, whatever happened to the publishes before, stays gap-free over every
      orderly continuation exactly when what its channel brings is unbroken. */
  lemma GapFreeExactlyWhenUnbroken(s: System, k: nat)
    requires InStep(s, k)
    ensures AlwaysGapFree(s, k, s.clients[k].start) <==>
            Unbroken(s.clients[k], s.unpublished, Counter(s.store, s.sid))
  {
    var c, counter := s.clients[k], Counter(s.store, s.sid);
    if Unbroken(c, s.unpublished, counter) {
      FlowingIsGapFree(s, k);
    } else if !Flows(Arriving(c, s.unpublished), Reach(c)) {
      FetchedGap(s, k);
    } else {
      MissingGap(s, k);
    }
  }

  // ----- one publish out of order -----

  lemma {:induction false} ChannelFlows(ch: Channel, published: int, upto: int)
    requires ChannelOk(ch, published) && Meets(ch, published, upto)
    ensures Flows(ch.buffer, upto)
    ensures ch.open ==> Drained(ch.buffer, upto) == Up(upto, published)
  {
    if ch.buffer != [] { FlowsRun(ch.buffer, ch.buffer[0].seqNo - 1, upto); }
  }

  lemma ClientTracked(c: Client, counter: int, published: int)
    requires ClientOk(c, counter, published) && published <= counter
    ensures Tracked(c, counter)
  {
    assert c.phase != Gone ==> ChannelOk(c.channel, published);
  }

  lemma SyncedInStep(s: System, k: nat)
    requires Synced(s) && k in s.clients
    ensures InStep(s, k)
  {
    ClientTracked(s.clients[k], Counter(s.store, s.sid), Published(s));
  }

  /** In every run, whatever the order of the publishes and whichever saves failed: as long as a client's handler
      has not skipped a number, the client will have no gap in any orderly continuation exactly when what its
      channel brings is unbroken. */
  lemma GapFreeInAnyOrder(s: System, steps: seq<Step>, k: nat)
    requires Synced(s) && k in s.clients && Unskipped(s, steps, k)
    ensures k in Stream.Run(s, steps).clients
    ensures var t := Stream.Run(s, steps);
            AlwaysGapFree(t, k, s.clients[k].start) <==>
            Unbroken(t.clients[k], t.unpublished, Counter(t.store, s.sid))
  {
    SyncedInStep(s, k);
    RunKeepsInStep(s, steps, k);
    StartIsFixed(s, steps, k);
    SidIsFixed(s, steps);
    GapFreeExactlyWhenUnbroken(Stream.Run(s, steps), k);
  }

  lemma FetchedMeets(c: Client, counter: int, published: int)
    requires ClientOk(c, counter, published) && Fetched(c)
    ensures ChannelOk(c.channel, published) && Meets(c.channel, published, Reach(c))
  {
  }

  /** What remains held back after the i-th is published: two runs around it. */
  lemma HeldFlows(held: seq<SessionEvent>, i: nat, published: int, cursor: int)
    requires RunFrom(held, published) && i < |held| && published <= cursor
    ensures var arriving := [held[i]] + (held[..i] + held[i + 1..]);
            && (Flows(arriving, cursor) <==> published + i <= cursor)
            && (Flows(arriving, cursor) ==> Drained(arriving, cursor) == Up(cursor, published + |held|))
  {
    var cursor' := Up(cursor, held[i].seqNo);
    var arriving := [held[i]] + (held[..i] + held[i + 1..]);
    assert arriving[0] == held[i] && arriving[1..] == held[..i] + held[i + 1..];
    FlowsConcat(held[..i], held[i + 1..], cursor');
    FlowsRun(held[..i], published, cursor');
    FlowsRun(held[i + 1..], published + i + 1, cursor');
  }

  /** The publish of the i-th held event leaves the channel unbroken exactly when it overtakes nothing that this
      client still needs. */
  lemma PublishUnbroken(c: Client, held: seq<SessionEvent>, i: nat, published: int, counter: int)
    requires ClientOk(c, counter, published) && RunFrom(held, published)
    requires i < |held| && published + |held| == counter
    ensures Unbroken(Deliver(c, held[i]), held[..i] + held[i + 1..], counter) <==>
            (Reachable(c) && i > 0 ==> held[i - 1].seqNo <= Reach(c))
  {
    if Fetched(c) {
      var rest := held[..i] + held[i + 1..];
      FetchedMeets(c, counter, published);
      ChannelFlows(c.channel, published, Reach(c));
      if Reachable(c) {
        var cursor := Up(Reach(c), published);
        FlowsConcat(c.channel.buffer, [held[i]] + rest, Reach(c));
        assert c.channel.buffer + [held[i]] + rest == c.channel.buffer + ([held[i]] + rest);
        HeldFlows(held, i, published, cursor);
      }
    }
  }

  /** The state after that publish. */
  lemma PublishedInStep(s: System, i: nat, k: nat)
    requires Synced(s) && i < |s.unpublished| && k in s.clients
    ensures var s' := Next(s, PublishStep(i));
            && InStep(s', k) && s'.clients[k].start == s.clients[k].start
            && (Unbroken(s'.clients[k], s'.unpublished, Counter(s'.store, s'.sid)) <==>
                (Reachable(s.clients[k]) && i > 0 ==> s.unpublished[i - 1].seqNo <= Reach(s.clients[k])))
  {
    SyncedInStep(s, k);
    PublishKeepsInStep(s, i, k);
    NextClient(s, PublishStep(i), k);
    PublishUnbroken(s.clients[k], s.unpublished, i, Published(s), Counter(s.store, s.sid));
  }

  /** Any publish, from any state in step and for any client: the client stays gap-free over every orderly
      continuation exactly when the publish overtakes nothing, or does not reach a client whose handler has read
      its last batch (its channel is closed or full, or another batch will be read), or everything it overtakes
      is covered by what that handler has sent and still has in its batch. */
  lemma GapFreeExactlyInOrder(s: System, i: nat, k: nat)
    requires Synced(s) && i < |s.unpublished| && k in s.clients
    ensures Valid(Next(s, PublishStep(i)).store)
    ensures AlwaysGapFree(Next(s, PublishStep(i)), k, s.clients[k].start) <==>
            || i == 0
            || !Reachable(s.clients[k])
            || s.unpublished[i - 1].seqNo <= Reach(s.clients[k])
  {
    PublishedInStep(s, i, k);
    GapFreeExactlyWhenUnbroken(Next(s, PublishStep(i)), k);
  }

  /** An append to the stream's session that is saved and has a number left. */
  predicate Fits(s: System, event: SessionEvent) {
    && TrimSpace(event.sessionID) == s.sid && TrimSpace(event.kind) != ""
    && Counter(s.store, s.sid) < MAX_INT64
  }

  /** After that append, before its publish. */
  ghost function Held(s: System, event: SessionEvent): (held: System)
    requires Synced(s) && Fits(s, event)
    ensures Synced(held) && held.sid == s.sid && held.clients == s.clients && Published(held) == Published(s)
    ensures |held.unpublished| == |s.unpublished| + 1
    ensures Counter(held.store, s.sid) == Counter(s.store, s.sid) + 1
  {
    AppendMovesCounter(s.store, event, s.sid);
    NextKeepsSynced(s, AppendStep(event, true));
    Next(s, AppendStep(event, true))
  }

  lemma ReachIsGivenOut(c: Client, counter: int, published: int)
    requires ClientOk(c, counter, published) && Fetched(c)
    ensures Reach(c) <= counter
  {
  }

  /** Any client whose handler has read its last batch can lose an event: after two more appends, publishing the
      second one first leaves it with a gap in some orderly continuation. */
  lemma TwoAppendsSuffice(s: System, k: nat, first: SessionEvent, second: SessionEvent)
    requires Synced(s) && s.unpublished == [] && k in s.clients && Reachable(s.clients[k])
    requires Fits(s, first) && Fits(Held(s, first), second)
    ensures var s' := Next(Held(Held(s, first), second), PublishStep(1));
            Valid(s'.store) && !AlwaysGapFree(s', k, s.clients[k].start)
  {
    var held := Held(Held(s, first), second);
    ReachIsGivenOut(s.clients[k], Counter(s.store, s.sid), Published(s));
    assert held.unpublished[0].seqNo == Published(held) + 1;
    GapFreeExactlyInOrder(held, 1, k);
  }

  // ----- a concrete loss during the replay -----

  function Acts(c: Client, acts: seq<ClientStep>, st: State, sid: string): Client
    decreases |acts|
  {
    if acts == [] then c else Acts(Act(c, acts[0], st, sid), acts[1..], st, sid)
  }

  function StepsOf(acts: seq<ClientStep>, k: nat): seq<Step> {
    if acts == [] then [] else [ClientStep(k, acts[0])] + StepsOf(acts[1..], k)
  }

  lemma {:induction false} ActsRun(s: System, acts: seq<ClientStep>, k: nat)
    requires Valid(s.store) && k in s.clients && Fetch !in acts
    ensures OrderlyRun(s, StepsOf(acts, k)) && k in Stream.Run(s, StepsOf(acts, k)).clients
    ensures Stream.Run(s, StepsOf(acts, k)).clients[k] == Acts(s.clients[k], acts, s.store, s.sid)
    decreases |acts|
  {
    if acts != [] {
      var a := ClientStep(k, acts[0]);
      NextClient(s, a, k);
      ActsRun(Next(s, a), acts[1..], k);
      RunPrepend(s, a, StepsOf(acts[1..], k));
    }
  }

  const LOSING := [WriteReplayed, Receive, Read, Read, Read]

  lemma ReadThree(c: Client, e1: SessionEvent, cursor: int, e3: SessionEvent, st: State, sid: string)
    requires c.wire == [EventFrame(e1), ReadyFrame(cursor), EventFrame(e3)] && c.got == []
    ensures Acts(c, [Read, Read, Read], st, sid).got == [e1.seqNo, e3.seqNo]
  {
    var one := Act(c, Read, st, sid);
    assert one.wire == [ReadyFrame(cursor), EventFrame(e3)] && one.got == [e1.seqNo];
    var two := Act(one, Read, st, sid);
    assert two.wire == [EventFrame(e3)] && two.got == [e1.seqNo];
    assert [Read, Read, Read][1..] == [Read, Read] && [Read, Read][1..] == [Read];
    assert Acts(two, [Read], st, sid) == Act(two, Read, st, sid) by { assert [Read][1..] == []; }
  }

  lemma LosingActs(c: Client, e1: SessionEvent, e3: SessionEvent, st: State, sid: string)
    requires c.phase == Replaying(0, [e1], true) && c.channel == Channel([e3], true) && c.wire == [] && c.got == []
    requires e1.seqNo == 1 && e3.seqNo == 3
    ensures Acts(c, LOSING, st, sid).got == [1, 3]
  {
    var written := Act(c, WriteReplayed, st, sid);
    assert written.wire == [EventFrame(e1), ReadyFrame(1)] && written.phase == Tailing(1);
    var received := Act(written, Receive, st, sid);
    assert received.wire == [EventFrame(e1), ReadyFrame(1), EventFrame(e3)] && received.got == [];
    ReadThree(received, e1, 1, e3, st, sid);
    assert LOSING[1..] == [Receive, Read, Read, Read] && LOSING[1..][1..] == [Read, Read, Read];
    assert Acts(written, LOSING[1..], st, sid) == Acts(received, [Read, Read, Read], st, sid);
  }

  /** The handler is about to write the first event, its last batch, while two more are held back. */
  ghost predicate MidReplay(s: System, k: nat) {
    && Synced(s) && |s.unpublished| == 2 && Published(s) == 1
    && k in s.clients
    && var c := s.clients[k];
       && c.phase.Replaying? && c.phase.lastSeq == 0 && |c.phase.batch| == 1 && c.phase.final
       && c.channel == Channel([], true) && c.wire == [] && c.got == []
  }

  /** Publishing the third event before the second then makes the client read 1 and 3. */
  lemma ReplayLosesAnEvent(s: System, k: nat)
    requires MidReplay(s, k)
    ensures Valid(Next(s, PublishStep(1)).store)
    ensures var t, steps := Next(s, PublishStep(1)), StepsOf(LOSING, k);
            OrderlyRun(t, steps) && k in Stream.Run(t, steps).clients && Stream.Run(t, steps).clients[k].got == [1, 3]
  {
    var c, t := s.clients[k], Next(s, PublishStep(1));
    assert ClientOk(c, Counter(s.store, s.sid), Published(s));
    NextKeepsValid(s, PublishStep(1));
    NextClient(s, PublishStep(1), k);
    ActsRun(t, LOSING, k);
    assert c.phase.batch == [c.phase.batch[0]];
    LosingActs(t.clients[k], c.phase.batch[0], s.unpublished[1], t.store, t.sid);
  }

  function Event(n: nat): SessionEvent {
    SessionEvent("s", "", n, "message", OtherPayload(""))
  }

  const THREE := [Event(1), Event(2), Event(3)]

  lemma ThreeOf(s: string)
    ensures Of(THREE, s) == if s == "s" then THREE else []
  {
    assert THREE[1..] == [Event(2), Event(3)];
    assert [Event(2), Event(3)][1..] == [Event(3)];
    assert Of([Event(3)], s) == if s == "s" then [Event(3)] else [];
    assert Of([Event(2), Event(3)], s) == if s == "s" then [Event(2)] + [Event(3)] else [];
  }

  lemma TrimmedS()
    ensures IsTrimmed("s") && "s" != ""
  {
  }

  lemma ThreeIsValid(st: State)
    requires st == State(THREE, map["s" := 3], [], 100)
    ensures Valid(st) && Counter(st, "s") == 3
  {
    forall id: string ensures Block(st, id) { ThreeOf(id); }
    TrimmedS();
  }

  lemma ReaderIsOk(c: Client)
    requires c == NewClient(0).(phase := Replaying(0, [Event(1)], true), channel := Channel([], true))
    ensures ClientOk(c, 3, 1)
  {
  }

  lemma ReaderIsMidReplay(st: State, sid: string, e2: SessionEvent, e3: SessionEvent, c: Client)
    requires Valid(st) && sid != "" && IsTrimmed(sid) && Counter(st, sid) == 3
    requires e2.seqNo == 2 && e3.seqNo == 3 && ClientOk(c, 3, 1)
    requires c.phase.Replaying? && c.phase.lastSeq == 0 && |c.phase.batch| == 1 && c.phase.final
    requires c.channel == Channel([], true) && c.wire == [] && c.got == []
    ensures MidReplay(System(st, sid, [e2, e3], {}, map[0 := c]), 0)
  {
    var s := System(st, sid, [e2, e3], {}, map[0 := c]);
    assert RunFrom(s.unpublished, 1);
    assert forall k | k in s.clients :: s.clients[k] == c;
  }

  /** There is such a state. */
  lemma MidReplayHappens() returns (s: System)
    ensures MidReplay(s, 0)
  {
    var st, c :=
      State(THREE, map["s" := 3], [], 100),
      NewClient(0).(phase := Replaying(0, [Event(1)], true), channel := Channel([], true));
    ThreeIsValid(st);
    ReaderIsOk(c);
    TrimmedS();
    ReaderIsMidReplay(st, "s", Event(2), Event(3), c);
    s := System(st, "s", [Event(2), Event(3)], {}, map[0 := c]);
  }
}
