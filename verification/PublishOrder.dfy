/** Why the publish order matters: the store's lock is released between an append and its publish, so the
    goroutines that hold appended events can publish them in another order. */
module PublishOrder {
  import opened Wrappers
  import opened Decimal
  import SessionLog
  import opened Stream
  import Soak

  // ----- one channel, drained at once -----

  /** The events that a cursor filter lets through. */
  function Above(q: seq<SessionLog.SessionEvent>, cursor: int): seq<SessionLog.SessionEvent> {
    if q == [] then []
    else if q[0].seqNo <= cursor then Above(q[1..], cursor)
    else [q[0]] + Above(q[1..], q[0].seqNo)
  }

  function ReceiveAll(c: Client, st: SessionLog.State, sid: string): Client
    requires c.phase.Tailing?
    decreases |c.channel.buffer|
  {
    if c.channel.buffer == [] then c else ReceiveAll(Act(c, Receive, st, sid), st, sid)
  }

  lemma {:induction false} TailSendsAbove(c: Client, st: SessionLog.State, sid: string)
    requires c.phase.Tailing?
    ensures ReceiveAll(c, st, sid).sent == c.sent + Above(c.channel.buffer, c.phase.lastSeq)
    decreases |c.channel.buffer|
  {
    if c.channel.buffer != [] { TailSendsAbove(Act(c, Receive, st, sid), st, sid); }
  }

  lemma {:induction false} FilterLength(q: seq<SessionLog.SessionEvent>, cursor: int)
    ensures |Above(q, cursor)| <= |q|
    ensures |Above(q, cursor)| == |q| <==> Increasing(q, cursor)
  {
    if q != [] {
      if q[0].seqNo <= cursor {
        FilterLength(q[1..], cursor);
      } else {
        FilterLength(q[1..], q[0].seqNo);
        assert Increasing(q[1..], q[0].seqNo) ==> forall i | 0 < i < |q| :: q[i] == q[1..][i - 1];
        assert Increasing(q, cursor) ==> Increasing(q[1..], q[0].seqNo);
      }
    }
  }

  /** A tailing handler forwards everything its channel holds exactly when the publishes reached the
      channel in increasing order above its cursor; otherwise an event is silently skipped. */
  lemma TailSendsAllExactlyWhenInOrder(c: Client, st: SessionLog.State, sid: string)
    requires c.phase.Tailing?
    ensures |ReceiveAll(c, st, sid).sent| == |c.sent| + |c.channel.buffer|
            <==> Increasing(c.channel.buffer, c.phase.lastSeq)
  {
    TailSendsAbove(c, st, sid);
    FilterLength(c.channel.buffer, c.phase.lastSeq);
  }

  // ----- every continuation -----

  /** The numbers that a publish out of order overtakes: above `low` and below `later`. */
  predicate Overtaken(x: int, low: int, later: int) {
    low < x < later
  }

  ghost predicate NoneOvertaken(q: seq<SessionLog.SessionEvent>, low: int, later: int) {
    forall i | 0 <= i < |q| :: !Overtaken(q[i].seqNo, low, later)
  }

  /** The later event is in the buffer, and nothing overtaken comes before it. */
  predicate LaterFirst(buffer: seq<SessionLog.SessionEvent>, low: int, later: int) {
    && buffer != []
    && (|| buffer[0].seqNo == later
        || (!Overtaken(buffer[0].seqNo, low, later) && LaterFirst(buffer[1..], low, later)))
  }

  lemma {:induction false} LaterFirstSnoc(buffer: seq<SessionLog.SessionEvent>, e: SessionLog.SessionEvent, low: int,
        later: int)
    requires LaterFirst(buffer, low, later) || (e.seqNo == later && NoneOvertaken(buffer, low, later))
    ensures LaterFirst(buffer + [e], low, later)
  {
    if buffer != [] && buffer[0].seqNo != later {
      assert (buffer + [e])[1..] == buffer[1..] + [e];
      LaterFirstSnoc(buffer[1..], e, low, later);
    }
  }

  /** The connection has passed the later event, or will before it meets an overtaken one. */
  ghost predicate Passing(c: Client, low: int, later: int) {
    match c.phase
    case Gone => true
    case Replaying(_, batch, final) =>
      final && batch != [] && NoneOvertaken(batch, low, later) && LaterFirst(c.channel.buffer, low, later)
    case Tailing(lastSeq) => later <= lastSeq || LaterFirst(c.channel.buffer, low, later)
  }

  /** Nothing overtaken was sent since `base`. */
  ghost predicate SkipsSent(c: Client, base: seq<SessionLog.SessionEvent>, low: int, later: int) {
    base <= c.sent && NoneOvertaken(c.sent[|base|..], low, later) && Passing(c, low, later)
  }

  predicate SkipsFrame(f: Frame, low: int, later: int) {
    f.EventFrame? ==> !Overtaken(f.event.seqNo, low, later)
  }

  /** Nothing overtaken is on the wire or was read. */
  ghost predicate SkipsRead(c: Client, low: int, later: int) {
    && (forall i | 0 <= i < |c.wire| :: SkipsFrame(c.wire[i], low, later))
    && (forall i | 0 <= i < |c.got| :: !Overtaken(c.got[i], low, later))
  }

  lemma DeliverSkips(c: Client, e: SessionLog.SessionEvent, base: seq<SessionLog.SessionEvent>, low: int, later: int)
    requires SkipsSent(c, base, low, later)
    ensures SkipsSent(Deliver(c, e), base, low, later)
  {
    if LaterFirst(c.channel.buffer, low, later) { LaterFirstSnoc(c.channel.buffer, e, low, later); }
  }

  lemma SendSkips(c: Client, e: SessionLog.SessionEvent, lastSeq: int, base: seq<SessionLog.SessionEvent>, low: int,
        later: int)
    requires base <= c.sent && NoneOvertaken(c.sent[|base|..], low, later)
    requires !Overtaken(e.seqNo, low, later) || e.seqNo <= lastSeq
    ensures var (c', _) := SendAbove(c, e, lastSeq); base <= c'.sent && NoneOvertaken(c'.sent[|base|..], low, later)
  {
    var c' := SendAbove(c, e, lastSeq).0;
    assert forall i | 0 <= i < |c'.sent| - |base| :: c'.sent[|base|..][i] == c'.sent[|base| + i];
    assert forall i | 0 <= i < |c.sent| - |base| :: c.sent[|base|..][i] == c.sent[|base| + i];
  }

  /** The oldest buffered event is not an overtaken one that would still be sent. */
  lemma ReceiveSkips(c: Client, st: SessionLog.State, sid: string, base: seq<SessionLog.SessionEvent>, low: int,
        later: int)
    requires SkipsSent(c, base, low, later) && c.phase.Tailing? && c.channel.buffer != []
    ensures SkipsSent(Act(c, Receive, st, sid), base, low, later)
  {
    SendSkips(c, c.channel.buffer[0], c.phase.lastSeq, base, low, later);
  }

  /** The next event of the last batch is not an overtaken one. */
  lemma WriteSkips(c: Client, st: SessionLog.State, sid: string, base: seq<SessionLog.SessionEvent>, low: int,
        later: int)
    requires SkipsSent(c, base, low, later) && c.phase.Replaying?
    ensures SkipsSent(Act(c, WriteReplayed, st, sid), base, low, later)
  {
    SendSkips(c, c.phase.batch[0], c.phase.lastSeq, base, low, later);
    assert forall i | 0 <= i < |c.phase.batch| - 1 :: c.phase.batch[1..][i] == c.phase.batch[i + 1];
  }

  lemma ActSkips(c: Client, a: ClientStep, st: SessionLog.State, sid: string, base: seq<SessionLog.SessionEvent>,
        low: int, later: int)
    requires SkipsSent(c, base, low, later) && !a.Connect?
    ensures SkipsSent(Act(c, a, st, sid), base, low, later)
  {
    if a == Receive && c.phase.Tailing? && c.channel.buffer != [] {
      ReceiveSkips(c, st, sid, base, low, later);
    } else if a == WriteReplayed && c.phase.Replaying? {
      WriteSkips(c, st, sid, base, low, later);
    }
  }

  /** What a step does to one client. */
  function StepClient(s: System, a: Step, c: Client, k: nat): Client {
    match a
    case PublishStep(i) => if i < |s.unpublished| then Deliver(c, s.unpublished[i]) else c
    case CloseStreamsStep => CloseChannel(c)
    case ClientStep(j, act) => if j == k then Act(c, act, s.store, s.sid) else c
    case _ => c
  }

  lemma NextClient(s: System, a: Step, k: nat)
    requires SessionLog.Valid(s.store) && k in s.clients
    ensures k in Next(s, a).clients && Next(s, a).clients[k] == StepClient(s, a, s.clients[k], k)
  {
  }

  ghost predicate NoReconnect(steps: seq<Step>, k: nat) {
    forall i | 0 <= i < |steps| :: steps[i].ClientStep? && steps[i].k == k ==> !steps[i].a.Connect?
  }

  lemma StepSkips(s: System, a: Step, c: Client, k: nat, base: seq<SessionLog.SessionEvent>, low: int, later: int)
    requires SkipsSent(c, base, low, later) && (a.ClientStep? && a.k == k ==> !a.a.Connect?)
    ensures SkipsSent(StepClient(s, a, c, k), base, low, later)
  {
    match a
    case PublishStep(i) => if i < |s.unpublished| { DeliverSkips(c, s.unpublished[i], base, low, later); }
    case CloseStreamsStep =>
    case ClientStep(j, act) => if j == k { ActSkips(c, act, s.store, s.sid, base, low, later); }
    case AppendStep(event, saved) =>
    case DeleteStep(id) =>
    case RetentionStep(limit) =>
  }

  lemma {:induction false} RunSkipsSent(s: System, steps: seq<Step>, k: nat, base: seq<SessionLog.SessionEvent>,
        low: int, later: int)
    requires SessionLog.Valid(s.store) && k in s.clients && SkipsSent(s.clients[k], base, low, later)
             && NoReconnect(steps, k)
    ensures k in Run(s, steps).clients && SkipsSent(Run(s, steps).clients[k], base, low, later)
    decreases |steps|
  {
    if steps != [] {
      var n := |steps| - 1;
      RunSkipsSent(s, steps[..n], k, base, low, later);
      var t := Run(s, steps[..n]);
      NextClient(t, steps[n], k);
      StepSkips(t, steps[n], t.clients[k], k, base, low, later);
    }
  }

  /** The handler has read its last batch: what it sends after that batch comes from its channel. */
  predicate Fetched(c: Client) {
    c.phase.Tailing? || (c.phase.Replaying? && c.phase.final)
  }

  /** A publish reaches the client and matters to it: its open channel has room, and its handler reads no
      further batch. */
  predicate Reachable(c: Client) {
    Fetched(c) && c.channel.open && |c.channel.buffer| < STREAM_BUFFER
  }

  /** The handler's cursor once it has written out its batch. */
  function Reach(c: Client): int
    requires c.phase != Gone
  {
    if c.phase.Replaying? then c.phase.lastSeq + |c.phase.batch| else c.phase.lastSeq
  }

  /** Everything up to here was published, or is replayed to this client. */
  function Low(s: System, c: Client): int
    requires c.phase != Gone
  {
    if Reach(c) < Published(s) then Published(s) else Reach(c)
  }

  function Later(s: System, i: nat): int {
    Published(s) + 1 + i
  }

  ghost predicate ReachedBy(s: System, i: nat, k: nat) {
    Synced(s) && i < |s.unpublished| && k in s.clients && Reachable(s.clients[k])
  }

  /** Publishing out of order puts the later event ahead of everything it overtakes. */
  lemma PublishOvertakes(s: System, i: nat, k: nat, low: int)
    requires ReachedBy(s, i, k)
    requires Published(s) <= low && (s.clients[k].phase.Replaying? ==> Reach(s.clients[k]) <= low)
    ensures var t := Next(s, PublishStep(i));
            k in t.clients && t.clients[k] == Deliver(s.clients[k], s.unpublished[i])
    ensures SkipsSent(Deliver(s.clients[k], s.unpublished[i]), s.clients[k].sent, low, Later(s, i))
  {
    var c := s.clients[k];
    var c' := Deliver(c, s.unpublished[i]);
    assert ClientOk(c, SessionLog.Counter(s.store, s.sid), Published(s));
    NextClient(s, PublishStep(i), k);
    assert s.unpublished[i].seqNo == Later(s, i);
    LaterFirstSnoc(c.channel.buffer, s.unpublished[i], low, Later(s, i));
    assert c'.sent[|c.sent|..] == [];
  }

  lemma SkippedIsNotSent(sent: seq<SessionLog.SessionEvent>, before: nat, low: int, later: int)
    requires before <= |sent| && NoneOvertaken(sent[before..], low, later)
    ensures forall e | before <= e < |sent| :: !Overtaken(sent[e].seqNo, low, later)
  {
    forall e | before <= e < |sent| ensures !Overtaken(sent[e].seqNo, low, later) {
      assert sent[before..][e - before] == sent[e];
    }
  }

  /** When an event's publish reaches a client before those of earlier events, none of these is sent on that
      connection any more, in any continuation whatsoever, save those in the batch that is being written. */
  lemma OvertakenIsNeverSent(s: System, i: nat, k: nat, steps: seq<Step>)
    requires ReachedBy(s, i, k) && NoReconnect(steps, k)
    ensures var c, before, t := s.clients[k], s.clients[k].sent, Run(Next(s, PublishStep(i)), steps);
            && k in t.clients && before <= t.clients[k].sent
            && forall e, m | |before| <= e < |t.clients[k].sent| && 0 <= m < i
                             && (c.phase.Tailing? || Reach(c) < s.unpublished[m].seqNo) ::
                 t.clients[k].sent[e].seqNo != s.unpublished[m].seqNo
  {
    var c, before, later := s.clients[k], s.clients[k].sent, Later(s, i);
    var low := if c.phase.Tailing? then Published(s) else Low(s, c);
    PublishOvertakes(s, i, k, low);
    NextKeepsValid(s, PublishStep(i));
    var s1 := Next(s, PublishStep(i));
    RunSkipsSent(s1, steps, k, before, low, later);
    SkippedIsNotSent(Run(s1, steps).clients[k].sent, |before|, low, later);
    forall m | 0 <= m < i && (c.phase.Tailing? || Reach(c) < s.unpublished[m].seqNo)
      ensures Overtaken(s.unpublished[m].seqNo, low, later)
    {
      assert s.unpublished[m].seqNo == Published(s) + 1 + m;
    }
  }

  lemma ActSkipsRead(c: Client, a: ClientStep, st: SessionLog.State, sid: string, low: int, later: int)
    requires Passing(c, low, later) && SkipsRead(c, low, later) && !a.Connect?
    ensures SkipsRead(Act(c, a, st, sid), low, later)
  {
  }

  lemma {:induction false} RunSkipsRead(s: System, steps: seq<Step>, k: nat, low: int, later: int)
    requires SessionLog.Valid(s.store) && k in s.clients && NoReconnect(steps, k)
    requires SkipsSent(s.clients[k], s.clients[k].sent, low, later) && SkipsRead(s.clients[k], low, later)
    ensures k in Run(s, steps).clients && SkipsRead(Run(s, steps).clients[k], low, later)
    decreases |steps|
  {
    if steps != [] {
      var n := |steps| - 1;
      RunSkipsRead(s, steps[..n], k, low, later);
      RunSkipsSent(s, steps[..n], k, s.clients[k].sent, low, later);
      var t := Run(s, steps[..n]);
      NextClient(t, steps[n], k);
      if steps[n].ClientStep? && steps[n].k == k {
        ActSkipsRead(t.clients[k], steps[n].a, t.store, t.sid, low, later);
      }
    }
  }

  // ----- a client never reads anything at or below its cursor again -----

  /** The event frames on the wire increase above the cursor. */
  predicate Ordered(wire: seq<Frame>, cursor: int) {
    if wire == [] then true
    else if wire[0].EventFrame? then cursor < wire[0].event.seqNo && Ordered(wire[1..], wire[0].event.seqNo)
    else Ordered(wire[1..], cursor)
  }

  lemma {:induction false} OrderedSend(wire: seq<Frame>, cursor: int, f: Frame)
    requires Ordered(wire, cursor) && (f.EventFrame? ==> CursorAfter(wire, cursor) < f.event.seqNo)
    ensures Ordered(wire + [f], cursor)
    ensures CursorAfter(wire + [f], cursor) == if f.EventFrame? then f.event.seqNo else CursorAfter(wire, cursor)
    decreases |wire|
  {
    if wire == [] {
      assert wire + [f] == [f];
      assert [f][1..] == [];
    } else {
      assert (wire + [f])[1..] == wire[1..] + [f];
      OrderedSend(wire[1..], if wire[0].EventFrame? then wire[0].event.seqNo else cursor, f);
    }
  }

  lemma {:induction false} OrderedPrefix(wire: seq<Frame>, cursor: int, keep: nat)
    requires Ordered(wire, cursor) && keep <= |wire|
    ensures Ordered(wire[..keep], cursor)
    decreases |wire|
  {
    if keep > 0 {
      assert wire[..keep][1..] == wire[1..][..keep - 1];
      OrderedPrefix(wire[1..], if wire[0].EventFrame? then wire[0].event.seqNo else cursor, keep - 1);
    }
  }

  lemma {:induction false} OrderedBelow(wire: seq<Frame>, cursor: int, below: int)
    requires Ordered(wire, cursor) && below <= cursor
    ensures Ordered(wire, below) && CursorAfter(wire, below) <= CursorAfter(wire, cursor)
    decreases |wire|
  {
    if wire != [] && !wire[0].EventFrame? {
      OrderedBelow(wire[1..], cursor, below);
    }
  }

  lemma {:induction false} ConsecutiveIsOrdered(wire: seq<Frame>, cursor: int)
    requires Consecutive(wire, cursor)
    ensures Ordered(wire, cursor)
    decreases |wire|
  {
    if wire != [] {
      ConsecutiveIsOrdered(wire[1..], if wire[0].EventFrame? then cursor + 1 else cursor);
    }
  }

  /** The client's cursor is at least `floor`, and since `base` it has read nothing at or below that. */
  ghost predicate ReadsAbove(c: Client, base: seq<int>, floor: int) {
    && 0 <= c.start <= c.report.lastSeq <= MAX_INT64 && floor <= c.report.lastSeq
    && Ordered(c.wire, c.report.lastSeq)
    && (c.phase != Gone ==> CursorAfter(c.wire, c.report.lastSeq) <= c.phase.lastSeq)
    && base <= c.got && forall i | |base| <= i < |c.got| :: floor < c.got[i]
  }

  lemma ShownNumber(e: SessionLog.SessionEvent)
    requires 0 < e.seqNo
    ensures Soak.SeqOf(Shown(EventFrame(e))) == if e.seqNo <= MAX_INT64 then Some(e.seqNo) else None
  {
    FormatIsTrimmed(e.seqNo);
    ParseNat(e.seqNo);
  }

  /** The audit's cursor moves up to the number read, or stays when the number is beyond 64 bits. */
  lemma AuditMoves(r: Soak.Report, e: SessionLog.SessionEvent)
    requires 0 <= r.lastSeq < e.seqNo
    ensures Soak.Apply(r, Shown(EventFrame(e))).lastSeq == if e.seqNo <= MAX_INT64 then e.seqNo else r.lastSeq
  {
    ShownNumber(e);
  }

  /** Reading the first frame: the cursor moves up to it or stays, and what remains on the wire is above. */
  lemma ReadMovesUp(r: Soak.Report, wire: seq<Frame>)
    requires wire != [] && 0 <= r.lastSeq <= MAX_INT64 && Ordered(wire, r.lastSeq)
    ensures var next := Soak.Apply(r, Shown(wire[0])).lastSeq;
            && r.lastSeq <= next <= MAX_INT64 && Ordered(wire[1..], next)
            && CursorAfter(wire[1..], next) <= CursorAfter(wire, r.lastSeq)
  {
    if wire[0].EventFrame? {
      AuditMoves(r, wire[0].event);
      OrderedBelow(wire[1..], wire[0].event.seqNo, Soak.Apply(r, Shown(wire[0])).lastSeq);
    } else {
      assert Soak.Apply(r, Shown(wire[0])).lastSeq == r.lastSeq;
    }
  }

  lemma ReadStaysAbove(c: Client, st: SessionLog.State, sid: string, base: seq<int>, floor: int)
    requires ReadsAbove(c, base, floor) && c.wire != []
    ensures ReadsAbove(Act(c, Read, st, sid), base, floor)
  {
    ReadMovesUp(c.report, c.wire);
  }

  lemma SendStaysAbove(c: Client, e: SessionLog.SessionEvent, base: seq<int>, floor: int)
    requires ReadsAbove(c, base, floor) && c.phase != Gone
    ensures var (c', lastSeq) := SendAbove(c, e, c.phase.lastSeq);
            Ordered(c'.wire, c'.report.lastSeq) && CursorAfter(c'.wire, c'.report.lastSeq) <= lastSeq
  {
    if c.phase.lastSeq < e.seqNo { OrderedSend(c.wire, c.report.lastSeq, EventFrame(e)); }
  }

  lemma WriteStaysAbove(c: Client, st: SessionLog.State, sid: string, base: seq<int>, floor: int)
    requires ReadsAbove(c, base, floor) && c.phase.Replaying? && c.phase.batch != []
    ensures ReadsAbove(Act(c, WriteReplayed, st, sid), base, floor)
  {
    SendStaysAbove(c, c.phase.batch[0], base, floor);
    var (c', lastSeq) := SendAbove(c, c.phase.batch[0], c.phase.lastSeq);
    OrderedSend(c'.wire, c'.report.lastSeq, ReadyFrame(lastSeq));
  }

  lemma ReceiveStaysAbove(c: Client, st: SessionLog.State, sid: string, base: seq<int>, floor: int)
    requires ReadsAbove(c, base, floor) && c.phase.Tailing?
    ensures ReadsAbove(Act(c, Receive, st, sid), base, floor)
  {
    if c.channel.buffer != [] {
      SendStaysAbove(c, c.channel.buffer[0], base, floor);
    } else {
      OrderedSend(c.wire, c.report.lastSeq, ResetFrame(c.phase.lastSeq));
    }
  }

  lemma ActStaysAbove(c: Client, a: ClientStep, st: SessionLog.State, sid: string, base: seq<int>, floor: int)
    requires ReadsAbove(c, base, floor)
    ensures ReadsAbove(Act(c, a, st, sid), base, floor)
  {
    match a
    case Connect(how) => RequestResumes(c, how);
    case Fetch => if c.phase.Replaying? { OrderedSend(c.wire, c.report.lastSeq, ReadyFrame(c.phase.lastSeq)); }
    case WriteReplayed => if c.phase.Replaying? && c.phase.batch != [] { WriteStaysAbove(c, st, sid, base, floor); }
    case Receive => if c.phase.Tailing? { ReceiveStaysAbove(c, st, sid, base, floor); }
    case Beat => if c.phase.Tailing? { OrderedSend(c.wire, c.report.lastSeq, HeartbeatFrame(c.phase.lastSeq)); }
    case Cut(keep) => if keep <= |c.wire| { OrderedPrefix(c.wire, c.report.lastSeq, keep); }
    case Read => if c.wire != [] { ReadStaysAbove(c, st, sid, base, floor); }
  }

  lemma StepStaysAbove(s: System, a: Step, c: Client, k: nat, base: seq<int>, floor: int)
    requires ReadsAbove(c, base, floor)
    ensures ReadsAbove(StepClient(s, a, c, k), base, floor)
  {
    if a.ClientStep? && a.k == k { ActStaysAbove(c, a.a, s.store, s.sid, base, floor); }
  }

  /** In any continuation, reconnects included, a client reads nothing at or below the cursor it has now. */
  lemma {:induction false} RunReadsAbove(s: System, steps: seq<Step>, k: nat, base: seq<int>, floor: int)
    requires SessionLog.Valid(s.store) && k in s.clients && ReadsAbove(s.clients[k], base, floor)
    ensures k in Run(s, steps).clients && ReadsAbove(Run(s, steps).clients[k], base, floor)
    decreases |steps|
  {
    if steps != [] {
      var n := |steps| - 1;
      RunReadsAbove(s, steps[..n], k, base, floor);
      var t := Run(s, steps[..n]);
      NextClient(t, steps[n], k);
      StepStaysAbove(t, steps[n], t.clients[k], k, base, floor);
    }
  }

  lemma SyncedReadsAbove(s: System, k: nat)
    requires Synced(s) && k in s.clients
    ensures ReadsAbove(s.clients[k], s.clients[k].got, s.clients[k].report.lastSeq)
  {
    var c := s.clients[k];
    assert ClientOk(c, SessionLog.Counter(s.store, s.sid), Published(s));
    ConsecutiveIsOrdered(c.wire, c.report.lastSeq);
  }

  // ----- what is lost -----

  lemma {:induction false} WireBelow(wire: seq<Frame>, cursor: int, low: int, later: int)
    requires Consecutive(wire, cursor) && CursorAfter(wire, cursor) <= low
    ensures forall i | 0 <= i < |wire| :: SkipsFrame(wire[i], low, later)
    decreases |wire|
  {
    if wire != [] {
      var next := if wire[0].EventFrame? then cursor + 1 else cursor;
      WireBelow(wire[1..], next, low, later);
      ConsecutivePrefix(wire[1..], next, 0);
      assert forall i | 0 < i < |wire| :: wire[i] == wire[1..][i - 1];
    }
  }

  lemma ReachedSkipsRead(s: System, i: nat, k: nat)
    requires ReachedBy(s, i, k)
    ensures SkipsRead(s.clients[k], Low(s, s.clients[k]), Later(s, i))
  {
    var c := s.clients[k];
    assert ClientOk(c, SessionLog.Counter(s.store, s.sid), Published(s));
    WireBelow(c.wire, c.report.lastSeq, Low(s, c), Later(s, i));
    ConsecutivePrefix(c.wire, c.report.lastSeq, |c.wire|);
  }

  lemma AfterOvertaking(s: System, i: nat, k: nat, steps: seq<Step>)
    requires ReachedBy(s, i, k) && NoReconnect(steps, k)
    ensures SessionLog.Valid(Next(s, PublishStep(i)).store) && k in Run(Next(s, PublishStep(i)), steps).clients
    ensures var c := Run(Next(s, PublishStep(i)), steps).clients[k];
            && SkipsRead(c, Low(s, s.clients[k]), Later(s, i))
            && ReadsAbove(c, s.clients[k].got, s.clients[k].report.lastSeq)
  {
    var s1, low := Next(s, PublishStep(i)), Low(s, s.clients[k]);
    PublishOvertakes(s, i, k, low);
    NextKeepsValid(s, PublishStep(i));
    ReachedSkipsRead(s, i, k);
    SyncedReadsAbove(s, k);
    RunSkipsRead(s1, steps, k, low, Later(s, i));
    RunReadsAbove(s1, steps, k, s.clients[k].got, s.clients[k].report.lastSeq);
  }

  /** Once the client has read past the later event on that connection, no overtaken one beyond the batch that
      was being written is ever among what it has read, over any continuation and any number of reconnects. */
  lemma OvertakenIsLostForGood(s: System, i: nat, k: nat, steps: seq<Step>, later: seq<Step>)
    requires ReachedBy(s, i, k) && NoReconnect(steps, k)
    requires SessionLog.Valid(Next(s, PublishStep(i)).store) && k in Run(Next(s, PublishStep(i)), steps).clients
    requires Later(s, i) <= Run(Next(s, PublishStep(i)), steps).clients[k].report.lastSeq
    ensures var t := Run(Run(Next(s, PublishStep(i)), steps), later);
            && k in t.clients
            && forall j, m | 0 <= j < |t.clients[k].got| && 0 <= m < i
                             && Reach(s.clients[k]) < s.unpublished[m].seqNo ::
                 t.clients[k].got[j] != s.unpublished[m].seqNo
  {
    var s2 := Run(Next(s, PublishStep(i)), steps);
    AfterOvertaking(s, i, k, steps);
    var c := s2.clients[k];
    assert ReadsAbove(c, c.got, c.report.lastSeq);
    RunReadsAbove(s2, later, k, c.got, c.report.lastSeq);
    var got := Run(s2, later).clients[k].got;
    forall j, m | 0 <= j < |got| && 0 <= m < i && Reach(s.clients[k]) < s.unpublished[m].seqNo
      ensures got[j] != s.unpublished[m].seqNo
    {
      assert s.unpublished[m].seqNo == Published(s) + 1 + m;
      if j < |c.got| { assert got[j] == c.got[j]; }
    }
  }
}
