/** What the store's operations do to the session records, and which events a smaller cap keeps. */
module Records {
  import opened Wrappers
  import opened Text
  import opened SessionLog

  ghost predicate DistinctRecords(sessions: seq<SessionRecord>) {
    forall i, j | 0 <= i < j < |sessions| :: sessions[i].id != sessions[j].id
  }

  /** The records of the other sessions, in their order. */
  function OtherRecords(sessions: seq<SessionRecord>, id: string): seq<SessionRecord> {
    if sessions == [] then []
    else if sessions[0].id != id then [sessions[0]] + OtherRecords(sessions[1..], id)
    else OtherRecords(sessions[1..], id)
  }

  lemma {:induction false} OthersAreAll(sessions: seq<SessionRecord>, id: string)
    requires forall i | 0 <= i < |sessions| :: sessions[i].id != id
    ensures OtherRecords(sessions, id) == sessions
  {
    if sessions != [] { OthersAreAll(sessions[1..], id); }
  }

  lemma {:induction false} OthersHaveOtherIDs(sessions: seq<SessionRecord>, id: string)
    ensures forall r | r in OtherRecords(sessions, id) :: r in sessions && r.id != id
  {
    if sessions != [] { OthersHaveOtherIDs(sessions[1..], id); }
  }

  lemma {:induction false} OthersStayDistinct(sessions: seq<SessionRecord>, id: string)
    requires DistinctRecords(sessions)
    ensures DistinctRecords(OtherRecords(sessions, id))
  {
    if sessions != [] {
      OthersStayDistinct(sessions[1..], id);
      OthersHaveOtherIDs(sessions[1..], id);
      assert forall r | r in sessions[1..] :: r.id != sessions[0].id;
    }
  }

  // ----- deleting -----

  lemma {:induction false} RemoveLeavesOthers(sessions: seq<SessionRecord>, id: string)
    requires DistinctRecords(sessions)
    ensures RemoveRecord(sessions, id) == OtherRecords(sessions, id)
  {
    if sessions != [] {
      if sessions[0].id == id {
        assert forall i | 0 <= i < |sessions| - 1 :: sessions[1..][i] == sessions[i + 1];
        OthersAreAll(sessions[1..], id);
      } else {
        RemoveLeavesOthers(sessions[1..], id);
      }
    }
  }

  /** After a deletion no record has the id, and every other record is there in its old order. */
  lemma DeleteForgetsRecord(st: State, id: string)
    requires DistinctRecords(st.sessions)
    ensures var st' := DeleteFrom(st, id);
            && !HasSession(st', id) && DistinctRecords(st'.sessions)
            && st'.sessions == OtherRecords(st.sessions, id)
  {
    RemoveLeavesOthers(st.sessions, id);
    OthersHaveOtherIDs(st.sessions, id);
    OthersStayDistinct(st.sessions, id);
  }

  /** Deleting a session twice is deleting it once: the second deletion finds nothing. */
  lemma SecondDeleteFindsNothing(w: World, id: string, saved: bool, again: bool)
    requires Valid(w.mem) && DistinctRecords(w.mem.sessions)
    ensures var w' := Step(w, Delete(id, saved));
            && Valid(w'.mem) && Step(w', Delete(id, again)) == w'
            && (TrimSpace(id) != "" ==> !HasSession(w'.mem, TrimSpace(id)))
  {
    DeleteKeepsValid(w.mem, TrimSpace(id));
    DeleteForgetsRecord(w.mem, TrimSpace(id));
  }

  /** The store's own method: the first call deletes, the second reports that there is nothing to delete. */
  method DeleteTwice(store: Store, id: string, writable: bool, again: bool) returns (deleted: bool, twice: bool)
    requires DistinctRecords(store.state.sessions)
    modifies store
    ensures deleted <==> TrimSpace(id) != "" && HasSession(old(store.state), TrimSpace(id))
    ensures !twice && (TrimSpace(id) != "" ==> !HasSession(store.state, TrimSpace(id)))
    ensures store.state == if deleted then DeleteFrom(old(store.state), TrimSpace(id)) else old(store.state)
  {
    DeleteForgetsRecord(store.state, TrimSpace(id));
    var err;
    deleted, err := store.DeleteSession(id, writable);
    twice, err := store.DeleteSession(id, again);
  }

  // ----- upserting -----

  /** After an upsert the record is there, once, and every other record is there in its old order. */
  lemma {:induction false} PutKeepsOthers(sessions: seq<SessionRecord>, r: SessionRecord)
    ensures r in PutRecord(sessions, r)
    ensures OtherRecords(PutRecord(sessions, r), r.id) == OtherRecords(sessions, r.id)
    ensures DistinctRecords(sessions) ==> DistinctRecords(PutRecord(sessions, r))
    ensures forall q | q in PutRecord(sessions, r) :: q == r || q in sessions
  {
    if sessions != [] {
      PutKeepsOthers(sessions[1..], r);
      if DistinctRecords(sessions) {
        PutStaysDistinct(sessions, r);
      }
    }
  }

  lemma PutStaysDistinct(sessions: seq<SessionRecord>, r: SessionRecord)
    requires sessions != [] && DistinctRecords(sessions)
    requires DistinctRecords(PutRecord(sessions[1..], r))
    requires forall q | q in PutRecord(sessions[1..], r) :: q == r || q in sessions[1..]
    ensures DistinctRecords(PutRecord(sessions, r))
  {
    var rest := sessions[1..];
    assert forall q | q in rest :: q.id != sessions[0].id;
    if sessions[0].id == r.id {
      assert forall i, j | 0 <= i < j < |rest| :: rest[i].id != rest[j].id;
    } else {
      assert PutRecord(sessions, r) == [sessions[0]] + PutRecord(rest, r);
    }
  }

  /** With distinct ids, the record of the id is the one that was put. */
  lemma PutIsFound(sessions: seq<SessionRecord>, r: SessionRecord)
    requires DistinctRecords(sessions)
    ensures forall q | q in PutRecord(sessions, r) && q.id == r.id :: q == r
  {
    PutKeepsOthers(sessions, r);
    var put := PutRecord(sessions, r);
    var k :| 0 <= k < |put| && put[k] == r;
    forall q | q in put && q.id == r.id ensures q == r {
      var i :| 0 <= i < |put| && put[i] == q;
      assert i == k;
    }
  }

  /** An upsert of a record with a blank id does nothing. Any other is found afterwards, trimmed; the other records, the
      events and the counters are as they were; and the file has it exactly when the save succeeds. */
  lemma UpsertIsFound(w: World, record: SessionRecord, saved: bool)
    requires Valid(w.mem) && DistinctRecords(w.mem.sessions)
    ensures var w', r := Step(w, Upsert(record, saved)), TrimRecord(record);
            if TrimSpace(record.id) == "" then w' == w
            else
              && w'.mem == w.mem.(sessions := w'.mem.sessions) && w'.issued == w.issued
              && (forall q | q in w'.mem.sessions && q.id == r.id :: q == r) && r in w'.mem.sessions
              && OtherRecords(w'.mem.sessions, r.id) == OtherRecords(w.mem.sessions, r.id)
              && w'.disk == if saved then w'.mem else w.disk
  {
    PutKeepsOthers(w.mem.sessions, TrimRecord(record));
    PutIsFound(w.mem.sessions, TrimRecord(record));
  }

  lemma TrimRecordTrims(r: SessionRecord)
    ensures var t := TrimRecord(r);
            && IsTrimmed(t.id) && IsTrimmed(t.title) && IsTrimmed(t.lastRunID) && IsTrimmed(t.lastStatus)
            && (IsTrimmed(r.id) && IsTrimmed(r.title) && IsTrimmed(r.lastRunID) && IsTrimmed(r.lastStatus) ==> t == r)
  {
  }

  // ----- every run -----

  lemma StepKeepsDistinct(w: World, op: Op)
    requires Valid(w.mem) && DistinctRecords(w.mem.sessions) && DistinctRecords(w.disk.sessions)
    ensures var w' := Step(w, op); DistinctRecords(w'.mem.sessions) && DistinctRecords(w'.disk.sessions)
  {
    match op
    case Append(event, saved) =>
    case Delete(id, saved) => DeleteForgetsRecord(w.mem, TrimSpace(id));
    case SetRetention(limit, saved) =>
    case Upsert(record, saved) => PutKeepsOthers(w.mem.sessions, TrimRecord(record));
    case Restart =>
  }

  /** In every reachable state, of memory and of the file, no two records share an id. */
  lemma {:induction false} ReachableRecordsAreDistinct(ops: seq<Op>)
    ensures DistinctRecords(Run(ops).mem.sessions) && DistinctRecords(Run(ops).disk.sessions)
    decreases |ops|
  {
    if ops != [] {
      ReachableRecordsAreDistinct(ops[..|ops| - 1]);
      StepKeepsDistinct(Run(ops[..|ops| - 1]), ops[|ops| - 1]);
    }
  }

  // ----- the cap -----

  /** A new cap in range is the cap afterwards, and the newest events that fit it are kept, in order; records and
      counters stay. */
  lemma RetentionApplies(st: State, limit: int)
    ensures var st', max := WithRetention(st, limit), NormalizeRetentionLimit(limit, DEFAULT_SESSION_EVENTS_MAX);
            && st'.sessionEventsMax == max && st'.sessions == st.sessions && st'.counters == st.counters
            && (100 <= limit <= MAX_RETENTION_LIMIT ==> max == limit)
    ensures var st' := WithRetention(st, limit);
            && |st'.events| == (if |st.events| <= st'.sessionEventsMax then |st.events| else st'.sessionEventsMax)
            && st'.events == st.events[|st.events| - |st'.events|..]
  {
  }

  /** An accepted append stores the trimmed event with the next number at the end and drops only the oldest events,
      and only beyond the cap. */
  lemma AppendStoresLast(st: State, event: SessionEvent)
    requires Valid(st) && AppendEvent(st, event).Ok?
    ensures var (st', stored) := AppendEvent(st, event).value;
            && stored == SessionEvent(TrimSpace(event.sessionID), TrimSpace(event.runID),
                                      Counter(st, TrimSpace(event.sessionID)) + 1, TrimSpace(event.kind),
                                      event.payload)
            && st'.sessions == st.sessions && st'.sessionEventsMax == st.sessionEventsMax
            && st'.events == (if |st.events| < st.sessionEventsMax then st.events else st.events[1..]) + [stored]
  {
    if |st.events| == st.sessionEventsMax {
      var stored := AppendEvent(st, event).value.1;
      assert (st.events + [stored])[1..] == st.events[1..] + [stored];
    }
  }

  /** An append is refused exactly for a blank session id or, after that, a blank type. */
  lemma AppendRefusesBlank(st: State, event: SessionEvent)
    requires 0 <= st.sessionEventsMax
    ensures match AppendEvent(st, event)
            case Ok(_) => TrimSpace(event.sessionID) != "" && TrimSpace(event.kind) != ""
            case Err(e) =>
              if TrimSpace(event.sessionID) == "" then e == SessionIDRequired
              else TrimSpace(event.kind) == "" && e == TypeRequired
  {
  }

  // ----- saves and restarts -----

  /** A number counts as issued exactly when the append that drew it was saved, until the session is deleted. */
  lemma SavedIsIssued(w: World, event: SessionEvent, saved: bool, id: string)
    requires Valid(w.mem) && AppendEvent(w.mem, event).Ok?
    ensures var w', (st, stored) := Step(w, Append(event, saved)), AppendEvent(w.mem, event).value;
            && w'.mem == st && w'.disk == (if saved then st else w.disk)
            && Issued(w'.issued, id) ==
               Issued(w.issued, id) + if saved && id == stored.sessionID then {stored.seqNo} else {}
    ensures HasSession(w.mem, TrimSpace(id)) && TrimSpace(id) != "" ==>
              Issued(Step(w, Delete(id, saved)).issued, TrimSpace(id)) == {}
  {
  }

  /** A restart puts what the file holds into memory. */
  lemma RestartReadsFile(w: World)
    requires Inv(w)
    ensures Step(w, Restart) == w.(mem := w.disk)
  {
    LoadRestores(w.disk);
  }

  /** What was not saved is gone after a restart. */
  lemma RestartForgetsUnsaved(w: World, event: SessionEvent)
    requires Inv(w) && w.mem == w.disk
    ensures Inv(Step(w, Append(event, false)))
    ensures Step(Step(w, Append(event, false)), Restart) == w
  {
    StepKeepsInv(w, Append(event, false));
    RestartReadsFile(Step(w, Append(event, false)));
  }

  lemma RunThen(ops: seq<Op>, op: Op)
    ensures Run(ops + [op]) == Step(Run(ops), op)
  {
    assert (ops + [op])[..|ops|] == ops;
  }

  /** After any run, an append that was saved is still there after a restart: its event is the last one, its number the
      session's counter. */
  lemma SavedAppendSurvives(ops: seq<Op>, event: SessionEvent)
    requires AppendEvent(Run(ops).mem, event).Ok?
    ensures var stored := AppendEvent(Run(ops).mem, event).value.1;
            var st := Run(ops + [Append(event, true)] + [Restart]).mem;
            && st.events != [] && st.events[|st.events| - 1] == stored
            && Counter(st, stored.sessionID) == stored.seqNo
            && stored in Of(st.events, stored.sessionID)
  {
    var w := Run(ops);
    var w' := Step(w, Append(event, true));
    RunThen(ops, Append(event, true));
    RunThen(ops + [Append(event, true)], Restart);
    StepKeepsInv(w, Append(event, true));
    RestartReadsFile(w');
    AppendStoresLast(w.mem, event);
    OfMember(w'.mem.events, AppendEvent(w.mem, event).value.1);
  }

  // ----- listing -----

  /** The session's events above the cursor, in log order. */
  function Above(events: seq<SessionEvent>, id: string, after: int): seq<SessionEvent> {
    if events == [] then []
    else
      var front, last := events[..|events| - 1], events[|events| - 1];
      Above(front, id, after) + if last.sessionID == id && last.seqNo > after then [last] else []
  }

  lemma {:induction false} AboveCons(first: SessionEvent, rest: seq<SessionEvent>, id: string, after: int)
    ensures Above([first] + rest, id, after) ==
            (if first.sessionID == id && first.seqNo > after then [first] else []) + Above(rest, id, after)
    decreases |rest|
  {
    var all := [first] + rest;
    if rest == [] {
      assert all == [first] && all[..0] == [];
    } else {
      var front := rest[..|rest| - 1];
      assert all[..|all| - 1] == [first] + front;
      AboveCons(first, front, id, after);
    }
  }

  /** The first `n`, or all if there are fewer. */
  function First(q: seq<SessionEvent>, n: nat): seq<SessionEvent> {
    if |q| <= n then q else q[..n]
  }

  lemma FirstCons(x: SessionEvent, q: seq<SessionEvent>, n: nat)
    requires n > 0
    ensures First([x] + q, n) == [x] + First(q, n - 1)
  {
  }

  lemma {:induction false} PageIsFirstAbove(events: seq<SessionEvent>, id: string, after: int, limit: nat)
    ensures Page(events, id, after, limit) == First(Above(events, id, after), limit)
    decreases |events|
  {
    if events != [] && limit > 0 {
      var x, rest := events[0], events[1..];
      assert [x] + rest == events;
      AboveCons(x, rest, id, after);
      if x.sessionID == id && after < x.seqNo {
        PageIsFirstAbove(rest, id, after, limit - 1);
        FirstCons(x, Above(rest, id, after), limit);
      } else {
        PageIsFirstAbove(rest, id, after, limit);
        assert [] + Above(rest, id, after) == Above(rest, id, after);
      }
    }
  }

  /** A listing is the first of the session's events above the cursor, as many as asked for, 200 when none is asked
      for and never more than 2000; a blank id has none. */
  lemma ListIsFirstAbove(st: State, sessionID: string, after: int, limit: int)
    ensures ListEvents(st, sessionID, after, limit) ==
            if TrimSpace(sessionID) == "" then []
            else First(Above(st.events, TrimSpace(sessionID), after), PageLimit(limit))
  {
    PageIsFirstAbove(st.events, TrimSpace(sessionID), after, PageLimit(limit));
  }
}
