/** What callers of the bridge get, told from the steps of the run: which goroutine took a request's entry out of
    the table decides the outcome, and that outcome is what arrives. */
module BridgeCalls {
  import opened Wrappers
  import opened Decimal
  import opened Bridges

  /** What has become of a request: nobody took its entry, the goroutine that took it owes this outcome, or has
      sent it. */
  datatype Fate = Untaken | Taken(outcome: Outcome) | Sent(outcome: Outcome)

  /** The outcome that this step takes the request's entry for: a dispatcher for the reply, an effective drop
      report because the process is gone, the closing because the bridge is closed. */
  function Takes(s: System, a: Step, n: nat): Option<Outcome> {
    if RequestID(n) !in s.core.pending then None
    else
      match a
      case Dispatch(id) => if id == RequestID(n) then Some(Reply) else None
      case DropReport(connID) => if connID == s.core.connID then Some(Disconnected) else None
      case CloseStep => Some(ClosedOutcome)
      case _ => None
  }

  function NextFate(fate: Fate, s: System, a: Step, n: nat): Fate {
    match fate
    case Untaken => (match Takes(s, a, n) case Some(outcome) => Taken(outcome) case None => Untaken)
    case Taken(outcome) => if a == Pay(n) then Sent(outcome) else fate
    case Sent(_) => fate
  }

  /** The fate of request `n` after these steps. */
  ghost function FateAfter(fate: Fate, s: System, steps: seq<Step>, n: nat): Fate
    requires Inv(s)
    decreases |steps|
  {
    if steps == [] then fate
    else
      NextKeepsInv(s, steps[0]);
      FateAfter(NextFate(fate, s, steps[0], n), Next(s, steps[0]), steps[1..], n)
  }

  /** Debts, channels and returned outcomes agree with the fate. */
  ghost predicate Fits(fate: Fate, c: Calls, n: nat) {
    && (n in c.debts <==> fate.Taken?)
    && (fate.Taken? ==> c.debts[n].outcome == fate.outcome)
    && (n !in c.requests ==> fate == Untaken)
    && (n in c.requests ==>
          && c.requests[n].answers == (if fate.Sent? then 1 else 0)
          && match c.requests[n].status
             case Returned(Some(outcome)) => fate == Sent(outcome) && c.requests[n].channel == []
             case _ => c.requests[n].channel == if fate.Sent? then [fate.outcome] else [])
  }

  lemma EntryIsOwn(s: System, n: nat)
    requires Inv(s) && RequestID(n) in s.core.pending
    ensures s.core.pending[RequestID(n)] == n && n in s.calls.requests && n !in s.calls.debts && s.core.proc.Some?
  {
    var m := s.core.pending[RequestID(n)];
    assert EntryOk(s.core, s.calls, RequestID(n), m);
    RequestIDInjective(n, m);
  }

  /** Who is pending is exactly who is in the table under its id. */
  lemma PendingValues(s: System, n: nat)
    requires Inv(s)
    ensures n in s.core.pending.Values <==> RequestID(n) in s.core.pending
  {
    if RequestID(n) in s.core.pending { EntryIsOwn(s, n); }
    if n in s.core.pending.Values {
      var id :| id in s.core.pending && s.core.pending[id] == n;
      assert EntryOk(s.core, s.calls, id, n);
    }
  }

  lemma OweAt(debts: map<nat, Debt>, taken: set<nat>, debt: Debt, n: nat)
    ensures n in Owe(debts, taken, debt) <==> n in debts || n in taken
    ensures n in taken ==> Owe(debts, taken, debt)[n] == debt
    ensures n in debts && n !in taken ==> Owe(debts, taken, debt)[n] == debts[n]
  {
  }

  lemma OweFits(fate: Fate, s: System, taken: set<nat>, debt: Debt, n: nat)
    requires Inv(s) && Fits(fate, s.calls, n) && taken == s.core.pending.Values
    ensures Fits(if fate.Untaken? && RequestID(n) in s.core.pending then Taken(debt.outcome) else fate,
                 s.calls.(debts := Owe(s.calls.debts, taken, debt)), n)
  {
    PendingValues(s, n);
    OweAt(s.calls.debts, taken, debt, n);
    PendingIsUntaken(fate, s, n);
  }

  /** An entry in the table has not been taken. */
  lemma PendingIsUntaken(fate: Fate, s: System, n: nat)
    requires Inv(s) && Fits(fate, s.calls, n)
    ensures RequestID(n) in s.core.pending ==> fate == Untaken && n in s.calls.requests
  {
    if RequestID(n) in s.core.pending {
      EntryIsOwn(s, n);
      assert EntryOk(s.core, s.calls, RequestID(n), n);
    }
  }

  lemma OweOne(fate: Fate, c: Calls, m: nat, debt: Debt, n: nat)
    requires Fits(fate, c, n) && (m == n ==> fate == Untaken && n in c.requests)
    ensures Fits(if m == n then Taken(debt.outcome) else fate, c.(debts := c.debts[m := debt]), n)
  {
  }

  lemma DispatchCalls(s: System, id: string)
    ensures Next(s, Dispatch(id)).calls ==
            if id in s.core.pending then
              s.calls.(debts := s.calls.debts[s.core.pending[id] := Debt(s.threads, Reply)])
            else s.calls
  {
  }

  /** The entry under an id is that of the one request with this id. */
  lemma EntryOfID(s: System, id: string, n: nat)
    requires Inv(s) && id in s.core.pending
    ensures s.core.pending[id] == n <==> id == RequestID(n)
  {
    var m := s.core.pending[id];
    assert EntryOk(s.core, s.calls, id, m);
    RequestIDInjective(n, m);
  }

  lemma DispatchFits(fate: Fate, s: System, id: string, n: nat)
    requires Inv(s) && Fits(fate, s.calls, n)
    ensures Fits(NextFate(fate, s, Dispatch(id), n), Next(s, Dispatch(id)).calls, n)
  {
    DispatchCalls(s, id);
    PendingIsUntaken(fate, s, n);
    if id in s.core.pending {
      EntryOfID(s, id, n);
      OweOne(fate, s.calls, s.core.pending[id], Debt(s.threads, Reply), n);
    }
  }

  lemma PayOwnFits(fate: Fate, c: Calls, n: nat)
    requires Fits(fate, c, n) && fate.Taken? && n in c.requests && |c.requests[n].channel| == 0
    requires !(c.requests[n].status.Returned? && c.requests[n].status.outcome.Some?)
    ensures Fits(Sent(fate.outcome), PayNext(c, n), n)
  {
  }

  lemma PayOtherFits(fate: Fate, c: Calls, m: nat, n: nat)
    requires Fits(fate, c, n) && (m != n || !fate.Taken?)
    ensures Fits(fate, PayNext(c, m), n)
  {
  }

  lemma PayFate(fate: Fate, s: System, m: nat, n: nat)
    ensures NextFate(fate, s, Pay(m), n) == if fate.Taken? && m == n then Sent(fate.outcome) else fate
  {
  }

  /** Who is owed an outcome has an empty channel, and has not returned with one. */
  lemma OwedIsEmpty(fate: Fate, s: System, n: nat)
    requires Inv(s) && Fits(fate, s.calls, n) && fate.Taken?
    ensures n in s.calls.requests && |s.calls.requests[n].channel| == 0
    ensures !(s.calls.requests[n].status.Returned? && s.calls.requests[n].status.outcome.Some?)
  {
    assert DebtOk(s.calls, s.conns.notifier, n);
  }

  lemma PayFits(fate: Fate, s: System, m: nat, n: nat)
    requires Inv(s) && Fits(fate, s.calls, n)
    ensures Fits(NextFate(fate, s, Pay(m), n), Next(s, Pay(m)).calls, n)
  {
    PayFate(fate, s, m, n);
    if m == n && fate.Taken? {
      OwedIsEmpty(fate, s, n);
      PayOwnFits(fate, s.calls, n);
    } else {
      PayOtherFits(fate, s.calls, m, n);
    }
  }

  lemma RegisterFits(fate: Fate, s: System, m: nat, n: nat)
    requires Inv(s) && Fits(fate, s.calls, n)
    ensures Fits(NextFate(fate, s, RegisterStep(m), n), Next(s, RegisterStep(m)).calls, n)
  {
  }

  lemma DropCalls(s: System, connID: nat)
    ensures Next(s, DropReport(connID)).calls ==
            if s.core.connID != connID || s.core.proc.None? then s.calls
            else s.calls.(debts := Owe(s.calls.debts, s.core.pending.Values, Debt(s.threads, Disconnected)))
  {
  }

  lemma DropFate(fate: Fate, s: System, connID: nat, n: nat)
    requires Inv(s)
    ensures NextFate(fate, s, DropReport(connID), n) ==
            if fate.Untaken? && RequestID(n) in s.core.pending && s.core.connID == connID then Taken(Disconnected)
            else fate
    ensures s.core.proc.None? ==> RequestID(n) !in s.core.pending
  {
  }

  lemma DropFits(fate: Fate, s: System, connID: nat, n: nat)
    requires Inv(s) && Fits(fate, s.calls, n)
    ensures Fits(NextFate(fate, s, DropReport(connID), n), Next(s, DropReport(connID)).calls, n)
  {
    DropCalls(s, connID);
    DropFate(fate, s, connID, n);
    OweFits(fate, s, s.core.pending.Values, Debt(s.threads, Disconnected), n);
  }

  lemma CloseCalls(s: System)
    ensures Next(s, CloseStep).calls ==
            if s.core.closed then s.calls
            else s.calls.(debts := Owe(s.calls.debts, s.core.pending.Values, Debt(s.threads, ClosedOutcome)))
  {
  }

  lemma CloseFate(fate: Fate, s: System, n: nat)
    requires Inv(s)
    ensures NextFate(fate, s, CloseStep, n) ==
            if fate.Untaken? && RequestID(n) in s.core.pending then Taken(ClosedOutcome) else fate
    ensures s.core.closed ==> RequestID(n) !in s.core.pending
  {
  }

  lemma CloseFits(fate: Fate, s: System, n: nat)
    requires Inv(s) && Fits(fate, s.calls, n)
    ensures Fits(NextFate(fate, s, CloseStep, n), Next(s, CloseStep).calls, n)
  {
    CloseCalls(s);
    CloseFate(fate, s, n);
    OweFits(fate, s, s.core.pending.Values, Debt(s.threads, ClosedOutcome), n);
  }

  lemma ReceiveFits(fate: Fate, c: Calls, m: nat, n: nat)
    requires Fits(fate, c, n)
    ensures Fits(fate, ReceiveNext(c, m), n)
  {
  }

  lemma GiveUpFits(fate: Fate, c: Calls, m: nat, n: nat)
    requires Fits(fate, c, n)
    ensures Fits(fate, GiveUpNext(c, m), n)
  {
  }

  lemma UnregisterFits(fate: Fate, s: System, m: nat, n: nat)
    requires Fits(fate, s.calls, n)
    ensures Fits(fate, UnregisterNext(s, m).calls, n)
  {
  }

  /** The steps of a caller that take nothing out of the table for an outcome. */
  lemma CallerFits(fate: Fate, s: System, a: Step, n: nat)
    requires Inv(s) && Fits(fate, s.calls, n)
    requires a.DrawRequest? || a.Receive? || a.GiveUp? || a.UnregisterStep?
    ensures Fits(fate, Next(s, a).calls, n) && NextFate(fate, s, a, n) == fate
  {
    if a.Receive? {
      ReceiveFits(fate, s.calls, a.n, n);
    } else if a.GiveUp? {
      GiveUpFits(fate, s.calls, a.n, n);
    } else if a.UnregisterStep? {
      UnregisterFits(fate, s, a.n, n);
    }
  }

  lemma ConnectionFits(fate: Fate, s: System, a: Step, n: nat)
    requires a.EnterConnect? || a.StartFails? || a.StartSucceeds? || a.NumberConnection? || a.InstallStep?
             || a.CloseProcess? || a.LeaveLoopStep?
    ensures Next(s, a).calls == s.calls && NextFate(fate, s, a, n) == fate
  {
  }

  lemma NextFits(fate: Fate, s: System, a: Step, n: nat)
    requires Inv(s) && Fits(fate, s.calls, n)
    ensures Fits(NextFate(fate, s, a, n), Next(s, a).calls, n)
  {
    if a.Dispatch? {
      DispatchFits(fate, s, a.id, n);
    } else if a.Pay? {
      PayFits(fate, s, a.n, n);
    } else if a.RegisterStep? {
      RegisterFits(fate, s, a.n, n);
    } else if a.DropReport? {
      DropFits(fate, s, a.connID, n);
    } else if a.CloseStep? {
      CloseFits(fate, s, n);
    } else if a.DrawRequest? || a.Receive? || a.GiveUp? || a.UnregisterStep? {
      CallerFits(fate, s, a, n);
    } else {
      ConnectionFits(fate, s, a, n);
    }
  }

  lemma {:induction false} RunFits(fate: Fate, s: System, steps: seq<Step>, n: nat)
    requires Inv(s) && Fits(fate, s.calls, n)
    ensures Fits(FateAfter(fate, s, steps, n), Run(s, steps).calls, n)
    decreases |steps|
  {
    if steps != [] {
      NextKeepsInv(s, steps[0]);
      NextFits(fate, s, steps[0], n);
      RunFits(NextFate(fate, s, steps[0], n), Next(s, steps[0]), steps[1..], n);
    }
  }

  /** In every run, a caller that still waits has exactly the outcome that was sent to it, for the reason its
      entry was taken; and a caller that returned with an outcome returned with that one. */
  lemma CallersGetTheirOutcome(steps: seq<Step>, n: nat)
    requires Inv(START) && n in Run(START, steps).calls.requests
    ensures var fate, r := FateAfter(Untaken, START, steps, n), Run(START, steps).calls.requests[n];
            && (r.status == Waiting ==> forall outcome :: r.channel == [outcome] <==> fate == Sent(outcome))
            && (forall outcome :: r.status == Returned(Some(outcome)) ==> fate == Sent(outcome))
            && (forall outcome :: fate == Taken(outcome) <==>
                  n in Run(START, steps).calls.debts && Run(START, steps).calls.debts[n].outcome == outcome)
  {
    RunFits(Untaken, START, steps, n);
  }

  // ----- a call on a connection is answered -----

  /** Connected, with the next request number free. */
  ghost predicate Ready(s: System) {
    Inv(s) && s.core.proc.Some? && !s.core.closed
  }

  lemma DrawTakesNext(s: System) returns (t: System)
    requires Inv(s)
    ensures t == Next(s, DrawRequest) && Inv(t) && t.core == s.core && s.calls.lastRequest + 1 in t.calls.unregistered
  {
    NextKeepsInv(s, DrawRequest);
    t := Next(s, DrawRequest);
  }

  /** Registering leaves a waiting request of the current connection in the table. */
  lemma RegisterEnters(s: System, n: nat) returns (t: System)
    requires Ready(s) && n in s.calls.unregistered
    ensures t == Next(s, RegisterStep(n)) && Inv(t)
    ensures t.core == s.core.(pending := s.core.pending[RequestID(n) := n])
    ensures n in t.calls.requests && t.calls.requests[n] == Request(s.core.connID, [], Waiting, 0)
  {
    NextKeepsInv(s, RegisterStep(n));
    t := Next(s, RegisterStep(n));
  }

  lemma DispatchOwes(s: System, n: nat) returns (t: System)
    requires Inv(s) && RequestID(n) in s.core.pending
    ensures t == Next(s, Dispatch(RequestID(n))) && Inv(t)
    ensures n in t.calls.debts && t.calls.debts[n].outcome == Reply
    ensures t.calls.requests == s.calls.requests && t.core == s.core.(pending := s.core.pending - {RequestID(n)})
  {
    EntryIsOwn(s, n);
    NextKeepsInv(s, Dispatch(RequestID(n)));
    t := Next(s, Dispatch(RequestID(n)));
  }

  lemma PayPuts(s: System, n: nat) returns (t: System)
    requires Inv(s) && n in s.calls.debts
    ensures t == Next(s, Pay(n)) && Inv(t) && n !in t.calls.debts && t.core == s.core
    ensures n in s.calls.requests && n in t.calls.requests
    ensures t.calls.requests[n] == s.calls.requests[n].(channel := [s.calls.debts[n].outcome], answers := 1)
  {
    NextKeepsInv(s, Pay(n));
    assert DebtOk(s.calls, s.conns.notifier, n);
    assert RequestOk(s.core, s.calls, s.conns.lastConn, n);
    t := Next(s, Pay(n));
  }

  lemma ReceiveReturns(s: System, n: nat) returns (t: System)
    requires n in s.calls.requests && s.calls.requests[n].status == Waiting && |s.calls.requests[n].channel| == 1
    ensures t == Next(s, Receive(n)) && n in t.calls.requests && t.core == s.core
    ensures t.calls.requests[n].status == Returned(Some(s.calls.requests[n].channel[0]))
  {
    t := Next(s, Receive(n));
  }

  /** While the bridge is connected, a call whose reply arrives returns that reply: it draws its number and
      registers, a dispatcher takes its entry and pays, and it receives; its entry is gone. */
  lemma CallReturnsItsReply(s: System, n: nat) returns (t: System)
    requires Ready(s) && n == s.calls.lastRequest + 1
    ensures var called := Next(Next(s, DrawRequest), RegisterStep(n));
            t == Next(Next(Next(called, Dispatch(RequestID(n))), Pay(n)), Receive(n))
    ensures n in t.calls.requests && t.calls.requests[n].status == Returned(Some(Reply))
    ensures t.core == s.core.(pending := s.core.pending[RequestID(n) := n] - {RequestID(n)})
  {
    t := DrawTakesNext(s);
    t := RegisterEnters(t, n);
    t := DispatchOwes(t, n);
    t := PayPuts(t, n);
    t := ReceiveReturns(t, n);
  }

  /** A waiting caller that gives up, at its deadline or because its write failed, takes its own entry out: it returns
      without an outcome, the other entries stay, and a reply that comes later changes nothing. */
  lemma GivingUpLeaves(s: System, n: nat)
    requires Inv(s) && n in s.calls.requests && s.calls.requests[n].status == Waiting
    ensures var t := Next(Next(s, GiveUp(n)), UnregisterStep(n));
            && n in t.calls.requests && t.calls.requests[n] == s.calls.requests[n].(status := Returned(None))
            && t.core == s.core.(pending := s.core.pending - {RequestID(n)}) && t.calls.debts == s.calls.debts
            && Next(t, Dispatch(RequestID(n))) == t
  {
  }

  /** Without a connection a call is refused: its number is used up, and nothing is left waiting for it. */
  lemma RefusedLeavesNothing(s: System, n: nat)
    requires Inv(s) && s.core.proc.None? && n in s.calls.unregistered
    ensures Next(s, RegisterStep(n)) == s.(calls := s.calls.(unregistered := s.calls.unregistered - {n}))
  {
  }

  /** The count of lost sends, which stays 0 in every run, goes up exactly when a send finds the channel full. */
  lemma OverflowsAreCounted(c: Calls, n: nat)
    ensures PayNext(c, n).overflows >= c.overflows
    ensures PayNext(c, n).overflows > c.overflows <==> n in c.debts && n in c.requests && c.requests[n].channel != []
  {
  }

  // ----- a lost connection comes back -----

  /** An effective drop report leaves a reconnect loop running, takes the process out and hands it to be closed. */
  lemma DropStartsLoop(s: System)
    requires Ready(s)
    ensures var t := Next(s, DropReport(s.core.connID));
            && t.core.proc == None && t.core.reconnecting && t.conns.loops != {} && s.core.proc.value in t.conns.toClose
            && t.conns.drops == s.conns.drops + [s.core.connID]
  {
    NextKeepsInv(s, DropReport(s.core.connID));
  }

  lemma EnterBegins(s: System) returns (t: System)
    requires Inv(s) && !s.core.closed && s.core.proc.None? && !s.core.connecting
    ensures t == Next(s, EnterConnect) && Inv(t)
    ensures t.core == s.core.(connecting := true)
    ensures t.conns == s.conns.(attempts := s.conns.attempts[s.threads := Starting])
  {
    NextKeepsInv(s, EnterConnect);
    t := Next(s, EnterConnect);
  }

  lemma StartAndNumber(s: System, k: nat) returns (t: System)
    requires Inv(s) && k in s.conns.attempts && s.conns.attempts[k].Starting?
    ensures t == Next(Next(s, StartSucceeds(k)), NumberConnection(k)) && Inv(t)
    ensures t.core == s.core && k in t.conns.attempts
    ensures t.conns.attempts[k] == Numbered(s.conns.processes, s.conns.lastConn + 1)
    ensures t.conns.installs == s.conns.installs
  {
    NextKeepsInv(s, StartSucceeds(k));
    NextKeepsInv(Next(s, StartSucceeds(k)), NumberConnection(k));
    t := Next(Next(s, StartSucceeds(k)), NumberConnection(k));
  }

  lemma InstallSucceeds(s: System, k: nat) returns (t: System)
    requires Inv(s) && !s.core.closed && k in s.conns.attempts && s.conns.attempts[k].Numbered?
    ensures t == Next(s, InstallStep(k)) && Inv(t)
    ensures var a := s.conns.attempts[k];
            && t.core == s.core.(proc := Some(a.proc), connID := a.connID, connecting := false)
            && t.conns.installs == s.conns.installs + [a.connID]
  {
    NextKeepsInv(s, InstallStep(k));
    t := Next(s, InstallStep(k));
  }

  /** An unconnected bridge that is not closed connects when a process starts, to a connection never used before. */
  lemma ConnectSucceeds(s: System) returns (t: System)
    requires Inv(s) && !s.core.closed && s.core.proc.None? && !s.core.connecting
    ensures var k := s.threads;
            t == Next(Next(Next(Next(s, EnterConnect), StartSucceeds(k)), NumberConnection(k)), InstallStep(k))
    ensures Ready(t) && t.core.proc == Some(s.conns.processes) && t.core.connID == s.conns.lastConn + 1
    ensures t.conns.installs == s.conns.installs + [s.conns.lastConn + 1] && !t.core.connecting
  {
    t := EnterBegins(s);
    t := StartAndNumber(t, s.threads);
    t := InstallSucceeds(t, s.threads);
  }

  /** On a new bridge the first attempt connects, and the first call returns its reply. */
  lemma FirstCallIsAnswered() returns (connected: System, t: System)
    ensures Inv(START)
    ensures var k := START.threads;
            connected ==
            Next(Next(Next(Next(START, EnterConnect), StartSucceeds(k)), NumberConnection(k)), InstallStep(k))
    ensures var called := Next(Next(connected, DrawRequest), RegisterStep(1));
            t == Next(Next(Next(called, Dispatch(RequestID(1))), Pay(1)), Receive(1))
    ensures 1 in t.calls.requests && t.calls.requests[1].status == Returned(Some(Reply))
  {
    connected := ConnectSucceeds(START);
    t := CallReturnsItsReply(connected, 1);
  }

  /** What a caller finds that needs a connection: a closed bridge, a connection, nothing (it begins an attempt), or
      an attempt of somebody else, which is then there to be waited for. Only beginning changes anything. */
  lemma GateSaysWhy(s: System)
    requires Inv(s)
    ensures var (core, gate) := OpenGate(s.core);
            && (gate.BridgeClosed? <==> s.core.closed)
            && (gate.Connected? <==> s.core.proc.Some?)
            && (gate.MustWait? <==> s.core.connecting && !s.core.closed)
            && (gate.MustWait? ==> s.conns.attempts != map[])
            && core == if gate.Begun? then s.core.(connecting := true) else s.core
  {
  }

  /** A process that has started by the time the bridge is closed is not installed but handed to be closed. */
  lemma LateStartIsClosed(s: System, k: nat)
    requires Inv(s) && s.core.closed && k in s.conns.attempts && s.conns.attempts[k].Numbered?
    ensures var t := Next(s, InstallStep(k));
            && t.core == s.core.(connecting := false) && t.core.proc == None && k !in t.conns.attempts
            && s.conns.attempts[k].proc in t.conns.toClose && t.conns.installs == s.conns.installs
  {
  }

  /** The end of a reconnect loop lets a later drop start one. */
  lemma LoopLeaves(s: System, l: nat)
    requires l in s.conns.loops
    ensures var t := Next(s, LeaveLoopStep(l));
            && t.conns.loops == s.conns.loops - {l} && t.core == s.core.(reconnecting := false) && t.calls == s.calls
  {
  }

  /** A failed start lets the next attempt begin. */
  lemma FailureFrees(s: System, k: nat)
    requires Inv(s) && k in s.conns.attempts && s.conns.attempts[k].Starting?
    ensures var t := Next(s, StartFails(k)); !t.core.connecting && t.core.proc == s.core.proc && k !in t.conns.attempts
  {
  }

  /** Every process handed to be closed is closed. */
  lemma ClosingCloses(s: System, p: nat)
    requires p in s.conns.toClose
    ensures var t := Next(s, CloseProcess(p));
            p !in t.conns.toClose && CloseCount(t.conns.closes, p) == CloseCount(s.conns.closes, p) + 1
  {
  }

  lemma CloseOwes(s: System, n: nat)
    requires Inv(s) && !s.core.closed && RequestID(n) in s.core.pending
    ensures var t := Next(s, CloseStep); n in t.calls.debts && t.calls.debts[n].outcome == ClosedOutcome
  {
    CloseCalls(s);
    PendingValues(s, n);
    OweAt(s.calls.debts, s.core.pending.Values, Debt(s.threads, ClosedOutcome), n);
  }

  lemma CloseEmpties(s: System)
    requires !s.core.closed
    ensures var t := Next(s, CloseStep);
            && t.core.closed && t.core.proc == None && t.core.pending == map[]
            && (s.core.proc.Some? ==> s.core.proc.value in t.conns.toClose)
  {
  }

  /** Closing ends everything: no process, no table, every pending caller is owed the news. */
  lemma CloseEndsAll(s: System)
    requires Inv(s) && !s.core.closed
    ensures var t := Next(s, CloseStep);
            && t.core.closed && t.core.proc == None && t.core.pending == map[]
            && (s.core.proc.Some? ==> s.core.proc.value in t.conns.toClose)
            && forall n: nat | RequestID(n) in s.core.pending ::
                 n in t.calls.debts && t.calls.debts[n].outcome == ClosedOutcome
  {
    CloseEmpties(s);
    forall n: nat | RequestID(n) in s.core.pending
      ensures n in Next(s, CloseStep).calls.debts && Next(s, CloseStep).calls.debts[n].outcome == ClosedOutcome
    {
      CloseOwes(s, n);
    }
  }
}
