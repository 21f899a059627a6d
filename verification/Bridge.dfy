/** The JSON-RPC bridge to a child process that can die and be replaced: the pending table, connection
    epochs, drop reports, the reconnect loop and closing. `Bridge` holds the fields guarded by its
    mutex; each of its methods is one lock-held region and refines a function on `Core`. */
module Bridges {
  import opened Wrappers
  import opened Decimal

  /** The guarded fields. A process and a request's reply channel are known by their numbers. */
  datatype Core = Core(
    closed: bool,
    connecting: bool,
    reconnecting: bool,
    proc: Option<nat>,
    connID: nat,
    pending: map<string, nat>)

  const NEW_CORE := Core(false, false, false, None, 0, map[])

  datatype Gate = BridgeClosed | Connected | MustWait | Begun

  datatype Dropped = Dropped(proc: nat, taken: set<nat>, reconnect: bool)

  datatype Closing = Closing(proc: Option<nat>, taken: set<nat>)

  function RequestID(n: nat): string {
    "req_" + FormatNat(n)
  }

  // ----- what each lock-held region does -----

  /** The head of `ensureConnected`, up to the point where it waits or leaves the lock. */
  function OpenGate(c: Core): (Core, Gate) {
    if c.closed then (c, BridgeClosed)
    else if c.proc.Some? then (c, Connected)
    else if c.connecting then (c, MustWait)
    else (c.(connecting := true), Begun)
  }

  function FailConnect(c: Core): Core {
    c.(connecting := false)
  }

  function InstallProc(c: Core, proc: nat, connID: nat): (Core, bool) {
    if c.closed then (c.(connecting := false), false)
    else (c.(proc := Some(proc), connID := connID, connecting := false), true)
  }

  function Register(c: Core, n: nat): (Core, Option<nat>) {
    if c.closed || c.proc.None? then (c, None)
    else (c.(pending := c.pending[RequestID(n) := n]), Some(c.connID))
  }

  function Unregister(c: Core, n: nat): Core {
    c.(pending := c.pending - {RequestID(n)})
  }

  function Take(c: Core, id: string): (Core, Option<nat>) {
    (c.(pending := c.pending - {id}), if id in c.pending then Some(c.pending[id]) else None)
  }

  /** A drop report: it only counts for the connection that is current. */
  function Drop(c: Core, connID: nat): (Core, Option<Dropped>) {
    if c.connID != connID || c.proc.None? then (c, None)
    else
      var reconnect := !c.closed && !c.reconnecting;
      (c.(proc := None, connID := 0, pending := map[], reconnecting := c.reconnecting || reconnect),
       Some(Dropped(c.proc.value, c.pending.Values, reconnect)))
  }

  function LeaveLoop(c: Core): Core {
    c.(reconnecting := false)
  }

  function CloseCore(c: Core): (Core, Option<Closing>) {
    if c.closed then (c, None)
    else (c.(closed := true, proc := None, connID := 0, pending := map[]), Some(Closing(c.proc, c.pending.Values)))
  }

  class Bridge {
    var closed: bool
    var connecting: bool
    var reconnecting: bool
    var proc: Option<nat>
    var connID: nat
    var pending: map<string, nat>

    ghost function View(): Core
      reads this
    {
      Core(closed, connecting, reconnecting, proc, connID, pending)
    }

    constructor ()
      ensures View() == NEW_CORE
    {
      closed, connecting, reconnecting := false, false, false;
      proc, connID, pending := None, 0, map[];
    }

    method BeginConnect() returns (gate: Gate)
      modifies this
      ensures (View(), gate) == OpenGate(old(View()))
    {
      if closed {
        return BridgeClosed;
      }
      if proc != None {
        return Connected;
      }
      if !connecting {
        connecting := true;
        return Begun;
      }
      return MustWait;
    }

    method FinishConnect()
      modifies this
      ensures View() == FailConnect(old(View()))
    {
      connecting := false;
    }

    method Install(newProc: nat, newConnID: nat) returns (installed: bool)
      modifies this
      ensures (View(), installed) == InstallProc(old(View()), newProc, newConnID)
    {
      if closed {
        connecting := false;
        return false;
      }
      proc := Some(newProc);
      connID := newConnID;
      connecting := false;
      return true;
    }

    method RegisterPending(n: nat) returns (conn: Option<nat>)
      modifies this
      ensures (View(), conn) == Register(old(View()), n)
    {
      if closed {
        return None;
      }
      if proc == None {
        return None;
      }
      pending := pending[RequestID(n) := n];
      return Some(connID);
    }

    method UnregisterPending(n: nat)
      modifies this
      ensures View() == Unregister(old(View()), n)
    {
      pending := pending - {RequestID(n)};
    }

    method TakePending(id: string) returns (n: Option<nat>)
      modifies this
      ensures (View(), n) == Take(old(View()), id)
    {
      n := if id in pending then Some(pending[id]) else None;
      pending := pending - {id};
    }

    method HandleProcessDrop(droppedID: nat) returns (dropped: Option<Dropped>)
      modifies this
      ensures (View(), dropped) == Drop(old(View()), droppedID)
    {
      if connID != droppedID || proc == None {
        return None;
      }
      var old_proc := proc.value;
      proc := None;
      connID := 0;
      var taken := pending;
      pending := map[];
      var shouldReconnect := !closed && !reconnecting;
      if shouldReconnect {
        reconnecting := true;
      }
      return Some(Dropped(old_proc, taken.Values, shouldReconnect));
    }

    method LeaveReconnectLoop()
      modifies this
      ensures View() == LeaveLoop(old(View()))
    {
      reconnecting := false;
    }

    method Close() returns (closing: Option<Closing>)
      modifies this
      ensures (View(), closing) == CloseCore(old(View()))
    {
      if closed {
        return None;
      }
      closed := true;
      closing := Some(Closing(proc, pending.Values));
      proc := None;
      connID := 0;
      pending := map[];
    }
  }

  // ----- the whole system of goroutines -----

  datatype Outcome = Reply | Disconnected | ClosedOutcome

  /** A caller is waiting on its reply channel, is on its way to unregister, or has returned. */
  datatype Status = Waiting | Leaving | Returned(outcome: Option<Outcome>)

  /** A registered request: its connection, its capacity-1 channel, and how often it was answered. */
  datatype Request = Request(conn: nat, channel: seq<Outcome>, status: Status, answers: nat)

  /** An entry that goroutine `payer` has taken out of the table and will send to next. */
  datatype Debt = Debt(payer: nat, outcome: Outcome)

  /** The callers' side: the atomic request counter, numbers drawn but not yet registered, requests,
      entries taken but not yet answered, and non-blocking sends that found their channel full. */
  datatype Calls = Calls(
    lastRequest: nat,
    unregistered: set<nat>,
    requests: map<nat, Request>,
    debts: map<nat, Debt>,
    overflows: nat)

  /** A connect attempt outside the lock. */
  datatype Attempt = Starting | Started(proc: nat) | Numbered(proc: nat, connID: nat)

  /** The connecting side: the atomic connection counter, attempts and reconnect loops by goroutine,
      how many processes were started, which ones a goroutine is about to close and how often each was
      closed, the ids installed and the ids whose drop took effect, in order, and the goroutine that
      ended a connection and notifies its callers. */
  datatype Conns = Conns(
    lastConn: nat,
    attempts: map<nat, Attempt>,
    loops: set<nat>,
    processes: nat,
    toClose: set<nat>,
    closes: map<nat, nat>,
    installs: seq<nat>,
    drops: seq<nat>,
    notifier: map<nat, nat>)

  datatype System = System(core: Core, threads: nat, calls: Calls, conns: Conns)

  const START := System(NEW_CORE, 0, Calls(0, {}, map[], map[], 0), Conns(0, map[], {}, 0, {}, map[], [], [], map[]))

  datatype Step =
    | EnterConnect
    | StartFails(t: nat)
    | StartSucceeds(t: nat)
    | NumberConnection(t: nat)
    | InstallStep(t: nat)
    | DrawRequest
    | RegisterStep(n: nat)
    | Receive(n: nat)
    | GiveUp(n: nat)
    | UnregisterStep(n: nat)
    | Dispatch(id: string)
    | Pay(n: nat)
    | DropReport(connID: nat)
    | CloseProcess(p: nat)
    | LeaveLoopStep(l: nat)
    | CloseStep

  function CloseCount(closes: map<nat, nat>, p: nat): nat {
    if p in closes then closes[p] else 0
  }

  function Owe(debts: map<nat, Debt>, taken: set<nat>, debt: Debt): map<nat, Debt> {
    debts + map n | n in taken :: debt
  }

  function EnterNext(s: System): System {
    var (core, gate) := OpenGate(s.core);
    if gate != Begun then s
    else s.(core := core, threads := s.threads + 1,
            conns := s.conns.(attempts := s.conns.attempts[s.threads := Starting]))
  }

  function StartFailsNext(s: System, t: nat): System {
    if t !in s.conns.attempts || !s.conns.attempts[t].Starting? then s
    else s.(core := FailConnect(s.core), conns := s.conns.(attempts := s.conns.attempts - {t}))
  }

  function StartSucceedsNext(s: System, t: nat): System {
    var c := s.conns;
    if t !in c.attempts || !c.attempts[t].Starting? then s
    else s.(conns := c.(processes := c.processes + 1, attempts := c.attempts[t := Started(c.processes)]))
  }

  function NumberNext(s: System, t: nat): System {
    var c := s.conns;
    if t !in c.attempts || !c.attempts[t].Started? then s
    else s.(conns := c.(lastConn := c.lastConn + 1,
                        attempts := c.attempts[t := Numbered(c.attempts[t].proc, c.lastConn + 1)]))
  }

  /** Installs the process, or hands it to be closed when the bridge was closed meanwhile. */
  function InstallNext(s: System, t: nat): System {
    var c := s.conns;
    if t !in c.attempts || !c.attempts[t].Numbered? then s
    else
      var (core, installed) := InstallProc(s.core, c.attempts[t].proc, c.attempts[t].connID);
      var c' := c.(attempts := c.attempts - {t});
      if installed then s.(core := core, conns := c'.(installs := c.installs + [c.attempts[t].connID]))
      else s.(core := core, conns := c'.(toClose := c.toClose + {c.attempts[t].proc}))
  }

  function DrawNext(c: Calls): Calls {
    c.(lastRequest := c.lastRequest + 1, unregistered := c.unregistered + {c.lastRequest + 1})
  }

  function RegisterNext(s: System, n: nat): System {
    var c := s.calls;
    if n !in c.unregistered then s
    else
      var (core, conn) := Register(s.core, n);
      var c' := c.(unregistered := c.unregistered - {n});
      if conn.None? then s.(calls := c')
      else s.(core := core, calls := c'.(requests := c.requests[n := Request(conn.value, [], Waiting, 0)]))
  }

  function ReceiveNext(c: Calls, n: nat): Calls {
    if n !in c.requests || c.requests[n].status != Waiting || c.requests[n].channel == [] then c
    else
      var r := c.requests[n];
      c.(requests := c.requests[n := r.(channel := [], status := Returned(Some(r.channel[0])))])
  }

  function GiveUpNext(c: Calls, n: nat): Calls {
    if n !in c.requests || c.requests[n].status != Waiting then c
    else c.(requests := c.requests[n := c.requests[n].(status := Leaving)])
  }

  function UnregisterNext(s: System, n: nat): System {
    var c := s.calls;
    if n !in c.requests || c.requests[n].status != Leaving then s
    else
      var left := c.requests[n := c.requests[n].(status := Returned(None))];
      s.(core := Unregister(s.core, n), calls := c.(requests := left))
  }

  function DispatchNext(s: System, id: string): System {
    var (core, n) := Take(s.core, id);
    if n.None? then s
    else s.(core := core, threads := s.threads + 1,
            calls := s.calls.(debts := s.calls.debts[n.value := Debt(s.threads, Reply)]))
  }

  /** The non-blocking send into the capacity-1 channel. */
  function PayNext(c: Calls, n: nat): Calls {
    if n !in c.debts || n !in c.requests then c
    else if c.requests[n].channel != [] then c.(debts := c.debts - {n}, overflows := c.overflows + 1)
    else
      var r := c.requests[n];
      c.(debts := c.debts - {n},
         requests := c.requests[n := r.(channel := [c.debts[n].outcome], answers := r.answers + 1)])
  }

  function DropNext(s: System, connID: nat): System {
    var (core, dropped) := Drop(s.core, connID);
    if dropped.None? then s
    else
      var d, c := dropped.value, s.conns;
      System(core, s.threads + 1, s.calls.(debts := Owe(s.calls.debts, d.taken, Debt(s.threads, Disconnected))),
             c.(toClose := c.toClose + {d.proc}, notifier := c.notifier[connID := s.threads],
                drops := c.drops + [connID],
                loops := if d.reconnect then c.loops + {s.threads} else c.loops))
  }

  function CloseProcessNext(c: Conns, p: nat): Conns {
    if p !in c.toClose then c
    else c.(toClose := c.toClose - {p}, closes := c.closes[p := CloseCount(c.closes, p) + 1])
  }

  function LeaveLoopNext(s: System, l: nat): System {
    if l !in s.conns.loops then s
    else s.(core := LeaveLoop(s.core), conns := s.conns.(loops := s.conns.loops - {l}))
  }

  function CloseNext(s: System): System {
    var (core, closing) := CloseCore(s.core);
    if closing.None? then s
    else
      var d, c := closing.value, s.conns;
      System(core, s.threads + 1, s.calls.(debts := Owe(s.calls.debts, d.taken, Debt(s.threads, ClosedOutcome))),
             if d.proc.None? then c
             else c.(toClose := c.toClose + {d.proc.value}, notifier := c.notifier[s.core.connID := s.threads]))
  }

  /** One step of any goroutine; a step that is not enabled changes nothing. */
  function Next(s: System, a: Step): System {
    match a
    case EnterConnect => EnterNext(s)
    case StartFails(t) => StartFailsNext(s, t)
    case StartSucceeds(t) => StartSucceedsNext(s, t)
    case NumberConnection(t) => NumberNext(s, t)
    case InstallStep(t) => InstallNext(s, t)
    case DrawRequest => s.(calls := DrawNext(s.calls))
    case RegisterStep(n) => RegisterNext(s, n)
    case Receive(n) => s.(calls := ReceiveNext(s.calls, n))
    case GiveUp(n) => s.(calls := GiveUpNext(s.calls, n))
    case UnregisterStep(n) => UnregisterNext(s, n)
    case Dispatch(id) => DispatchNext(s, id)
    case Pay(n) => s.(calls := PayNext(s.calls, n))
    case DropReport(connID) => DropNext(s, connID)
    case CloseProcess(p) => s.(conns := CloseProcessNext(s.conns, p))
    case LeaveLoopStep(l) => LeaveLoopNext(s, l)
    case CloseStep => CloseNext(s)
  }

  // ----- invariants -----

  /** No process: no connection id and nothing pending. After closing there is no process. */
  ghost predicate CoreOk(c: Core) {
    && (c.proc.None? ==> c.connID == 0 && c.pending == map[])
    && (c.closed ==> c.proc.None?)
    && (c.connecting ==> c.proc.None?)
  }

  /** Pending entries are unanswered requests of the current connection. */
  ghost predicate PendingOk(core: Core, c: Calls) {
    forall id | id in core.pending :: EntryOk(core, c, id, core.pending[id])
  }

  ghost predicate EntryOk(core: Core, c: Calls, id: string, n: nat) {
    && id == RequestID(n) && n !in c.debts
    && n in c.requests && c.requests[n].conn == core.connID && c.requests[n].answers == 0
  }

  /** A debt is owed to an unanswered request, and unless it is a reply, by the goroutine that ended the
      request's connection. */
  ghost predicate DebtOk(c: Calls, notifier: map<nat, nat>, n: nat)
    requires n in c.debts
  {
    && n in c.requests && c.requests[n].answers == 0
    && (c.debts[n].outcome != Reply ==>
          c.requests[n].conn in notifier && notifier[c.requests[n].conn] == c.debts[n].payer)
  }

  /** A request is answered at most once, and one that still waits is pending, owed or answered. */
  ghost predicate RequestOk(core: Core, c: Calls, lastConn: nat, n: nat)
    requires n in c.requests
  {
    var r := c.requests[n];
    && |r.channel| <= r.answers <= 1
    && (r.status == Waiting ==> RequestID(n) in core.pending || n in c.debts || r.channel != [])
    && n <= c.lastRequest && r.conn <= lastConn
  }

  ghost predicate CallsOk(core: Core, c: Calls, lastConn: nat, notifier: map<nat, nat>) {
    && PendingOk(core, c)
    && c.overflows == 0
    && (forall n | n in c.debts :: DebtOk(c, notifier, n))
    && (forall n | n in c.requests :: RequestOk(core, c, lastConn, n))
    && (forall n | n in c.unregistered :: n <= c.lastRequest && n !in c.requests)
  }

  /** The flags tell the truth about the goroutines. */
  ghost predicate GuardsOk(core: Core, threads: nat, c: Conns) {
    && |c.attempts| == (if core.connecting then 1 else 0)
    && |c.loops| == (if core.reconnecting then 1 else 0)
    && (forall l | l in c.loops :: l < threads)
    && (forall t | t in c.attempts :: t < threads)
  }

  ghost predicate StrictlyIncreasing(q: seq<nat>) {
    forall i, j | 0 <= i < j < |q| :: q[i] < q[j]
  }

  ghost predicate Below(q: seq<nat>, bound: nat) {
    forall i | 0 <= i < |q| :: q[i] < bound
  }

  /** No installation, drop or notification has used this id or a later one. */
  ghost predicate Unused(c: Conns, id: nat) {
    Below(c.installs, id) && Below(c.drops, id) && forall k | k in c.notifier :: k < id
  }

  /** The current connection is the latest one installed, and nobody has dropped it. */
  ghost predicate CurrentOk(connID: nat, c: Conns) {
    && 0 < connID <= c.lastConn
    && c.installs != [] && c.installs[|c.installs| - 1] == connID
    && Below(c.drops, connID) && forall k | k in c.notifier :: k < connID
  }

  /** Connection ids only go up: through installation, drops and notification. */
  ghost predicate EpochsOk(core: Core, c: Conns) {
    && StrictlyIncreasing(c.installs) && StrictlyIncreasing(c.drops) && Unused(c, c.lastConn + 1)
    && (forall k | k in c.notifier :: 0 < k)
    && (core.proc.Some? ==> CurrentOk(core.connID, c))
    && (forall t | t in c.attempts && c.attempts[t].Numbered? ::
          c.attempts[t].connID == c.lastConn && 0 < c.lastConn && Unused(c, c.lastConn))
  }

  function InFlight(attempts: map<nat, Attempt>): set<nat> {
    set t | t in attempts && !attempts[t].Starting? :: attempts[t].proc
  }

  function Holders(proc: Option<nat>, c: Conns, p: nat): nat {
    (if proc == Some(p) then 1 else 0) + (if p in InFlight(c.attempts) then 1 else 0)
    + (if p in c.toClose then 1 else 0) + CloseCount(c.closes, p)
  }

  ghost predicate ProcessOk(proc: Option<nat>, c: Conns, p: nat) {
    Holders(proc, c, p) == if p < c.processes then 1 else 0
  }

  /** Every started process is current, being installed, about to be closed, or closed once: exactly one. */
  ghost predicate ProcessesOk(proc: Option<nat>, c: Conns) {
    forall p: nat :: ProcessOk(proc, c, p)
  }

  ghost predicate Inv(s: System) {
    && CoreOk(s.core)
    && CallsOk(s.core, s.calls, s.conns.lastConn, s.conns.notifier)
    && GuardsOk(s.core, s.threads, s.conns)
    && EpochsOk(s.core, s.conns)
    && ProcessesOk(s.core.proc, s.conns)
  }

  lemma RequestIDInjective(n: nat, m: nat)
    ensures RequestID(n) == RequestID(m) ==> n == m
  {
    FormatNatValue(n);
    FormatNatValue(m);
    assert RequestID(n)[4..] == FormatNat(n) && RequestID(m)[4..] == FormatNat(m);
  }

  /** One attempt at most: a set with one element has no other. */
  lemma OnlyOne<T>(q: set<T>, x: T)
    requires |q| == 1 && x in q
    ensures q == {x}
  {
    assert |q - {x}| == 0;
  }

  /** While an attempt is in flight it is the only one. */
  lemma OnlyAttempt(s: System, t: nat)
    requires Inv(s) && t in s.conns.attempts
    ensures s.core.connecting && s.core.proc.None? && s.conns.attempts == map[t := s.conns.attempts[t]]
  {
    OnlyOne(s.conns.attempts.Keys, t);
    assert |s.conns.attempts| != 0;
  }

  lemma EnterKeepsInv(s: System)
    requires Inv(s)
    ensures Inv(EnterNext(s))
  {
    var s' := EnterNext(s);
    if s' != s {
      assert s.conns.attempts == map[];
      assert InFlight(s'.conns.attempts) == {};
      assert forall p: nat | ProcessOk(s.core.proc, s.conns, p) :: ProcessOk(s'.core.proc, s'.conns, p);
    }
  }

  lemma StartFailsKeepsInv(s: System, t: nat)
    requires Inv(s)
    ensures Inv(StartFailsNext(s, t))
  {
    var s' := StartFailsNext(s, t);
    if s' != s {
      OnlyAttempt(s, t);
      assert s'.conns.attempts == map[];
      assert forall p: nat | ProcessOk(s.core.proc, s.conns, p) :: ProcessOk(s'.core.proc, s'.conns, p);
    }
  }

  /** With one attempt in flight, its process is the one that is being installed. */
  lemma OneInFlight(c: Conns, t: nat)
    requires t in c.attempts && c.attempts == map[t := c.attempts[t]]
    ensures InFlight(c.attempts) == if c.attempts[t].Starting? then {} else {c.attempts[t].proc}
  {
  }

  lemma ProcessesStay(proc: Option<nat>, c: Conns, c': Conns)
    requires ProcessesOk(proc, c) && InFlight(c'.attempts) == InFlight(c.attempts)
    requires c'.toClose == c.toClose && c'.closes == c.closes && c'.processes == c.processes
    ensures ProcessesOk(proc, c')
  {
    assert forall p: nat | ProcessOk(proc, c, p) :: ProcessOk(proc, c', p);
  }

  /** A newly started process is in flight. */
  lemma NewProcess(proc: Option<nat>, c: Conns, c': Conns)
    requires ProcessesOk(proc, c) && InFlight(c.attempts) == {} && InFlight(c'.attempts) == {c.processes}
    requires c'.toClose == c.toClose && c'.closes == c.closes && c'.processes == c.processes + 1
    ensures ProcessesOk(proc, c')
  {
    assert forall p: nat | ProcessOk(proc, c, p) :: ProcessOk(proc, c', p);
  }

  lemma StartSucceedsKeepsInv(s: System, t: nat)
    requires Inv(s)
    ensures Inv(StartSucceedsNext(s, t))
  {
    var c, c' := s.conns, StartSucceedsNext(s, t).conns;
    if c' != c {
      OnlyAttempt(s, t);
      assert c'.attempts == map[t := Started(c.processes)];
      OneInFlight(c, t);
      OneInFlight(c', t);
      NewProcess(s.core.proc, c, c');
    }
  }

  lemma NumberKeepsInv(s: System, t: nat)
    requires Inv(s)
    ensures Inv(NumberNext(s, t))
  {
    var c, c' := s.conns, NumberNext(s, t).conns;
    if c' != c {
      OnlyAttempt(s, t);
      assert c'.attempts == map[t := Numbered(c.attempts[t].proc, c.lastConn + 1)];
      OneInFlight(c, t);
      OneInFlight(c', t);
      ProcessesStay(s.core.proc, c, c');
      CallsStay(s.core, s.core, s.calls, c.lastConn, c'.lastConn, c.notifier);
    }
  }

  /** The process in flight becomes current, or goes to be closed. */
  lemma FlightIsHanded(p: nat, c: Conns, c': Conns, installed: bool)
    requires ProcessesOk(None, c) && InFlight(c.attempts) == {p} && InFlight(c'.attempts) == {}
    requires c'.closes == c.closes && c'.processes == c.processes
    requires c'.toClose == if installed then c.toClose else c.toClose + {p}
    ensures ProcessesOk(if installed then Some(p) else None, c')
  {
    var proc := if installed then Some(p) else None;
    assert forall q: nat | ProcessOk(None, c, q) :: ProcessOk(proc, c', q);
  }

  /** Installing takes the only attempt out of flight. */
  lemma InstallLands(c: Conns, c': Conns, t: nat, installed: bool)
    requires c.attempts.Keys == {t} && c.attempts[t].Numbered? && ProcessesOk(None, c)
    requires c'.attempts == c.attempts - {t} && c'.closes == c.closes && c'.processes == c.processes
    requires c'.toClose == if installed then c.toClose else c.toClose + {c.attempts[t].proc}
    ensures c'.attempts == map[] && ProcessesOk(if installed then Some(c.attempts[t].proc) else None, c')
  {
    OneInFlight(c, t);
    assert c'.attempts == map[];
    assert InFlight(c'.attempts) == {};
    FlightIsHanded(c.attempts[t].proc, c, c', installed);
  }

  lemma InstallKeepsInv(s: System, t: nat)
    requires Inv(s)
    ensures Inv(InstallNext(s, t))
  {
    var s' := InstallNext(s, t);
    if s' != s {
      OnlyAttempt(s, t);
      InstallLands(s.conns, s'.conns, t, s'.core.proc.Some?);
      CallsStay(s.core, s'.core, s.calls, s.conns.lastConn, s.conns.lastConn, s.conns.notifier);
    }
  }

  lemma RegisterKeepsCalls(core: Core, core': Core, c: Calls, c': Calls, lastConn: nat, notifier: map<nat, nat>, n: nat)
    requires CallsOk(core, c, lastConn, notifier) && n in c.unregistered && core.connID <= lastConn
    requires core' == core.(pending := core.pending[RequestID(n) := n])
    requires c' == c.(unregistered := c.unregistered - {n},
                      requests := c.requests[n := Request(core.connID, [], Waiting, 0)])
    ensures CallsOk(core', c', lastConn, notifier)
  {
    forall m | m in c'.requests ensures RequestOk(core', c', lastConn, m) {
      RequestIDInjective(n, m);
      assert m != n ==> RequestOk(core, c, lastConn, m);
    }
    forall id | id in core'.pending ensures EntryOk(core', c', id, core'.pending[id]) {
      assert id != RequestID(n) ==> EntryOk(core, c, id, core.pending[id]);
    }
    forall m | m in c'.debts ensures DebtOk(c', notifier, m) { assert DebtOk(c, notifier, m); }
  }

  lemma RegisterKeepsInv(s: System, n: nat)
    requires Inv(s)
    ensures Inv(Next(s, RegisterStep(n)))
  {
    var s' := RegisterNext(s, n);
    if s'.calls.requests != s.calls.requests {
      RegisterKeepsCalls(s.core, s'.core, s.calls, s'.calls, s.conns.lastConn, s.conns.notifier, n);
    }
  }

  lemma DrawKeepsInv(s: System)
    requires Inv(s)
    ensures Inv(Next(s, DrawRequest))
  {
  }

  /** Changing one request's channel and status keeps everyone else's place. */
  lemma RequestChangeKeepsCalls(core: Core, c: Calls, c': Calls, lastConn: nat, notifier: map<nat, nat>, n: nat,
        r: Request)
    requires CallsOk(core, c, lastConn, notifier) && n in c.requests
    requires c' == c.(requests := c.requests[n := r])
    requires r.conn == c.requests[n].conn && r.answers == c.requests[n].answers && r.status != Waiting
    requires |r.channel| <= |c.requests[n].channel|
    ensures CallsOk(core, c', lastConn, notifier)
  {
    assert RequestOk(core, c, lastConn, n);
    forall m | m in c'.requests ensures RequestOk(core, c', lastConn, m) {
      assert m != n ==> RequestOk(core, c, lastConn, m);
    }
    forall id | id in core.pending ensures EntryOk(core, c', id, core.pending[id]) {
      assert EntryOk(core, c, id, core.pending[id]);
    }
    forall m | m in c'.debts ensures DebtOk(c', notifier, m) {
      assert DebtOk(c, notifier, m);
    }
  }

  lemma ReceiveKeepsInv(s: System, n: nat)
    requires Inv(s)
    ensures Inv(Next(s, Receive(n)))
  {
    var c, c' := s.calls, ReceiveNext(s.calls, n);
    if c' != c {
      RequestChangeKeepsCalls(s.core, c, c', s.conns.lastConn, s.conns.notifier, n, c'.requests[n]);
    }
  }

  lemma GiveUpKeepsInv(s: System, n: nat)
    requires Inv(s)
    ensures Inv(Next(s, GiveUp(n)))
  {
    var c, c' := s.calls, GiveUpNext(s.calls, n);
    if c' != c {
      RequestChangeKeepsCalls(s.core, c, c', s.conns.lastConn, s.conns.notifier, n, c'.requests[n]);
    }
  }

  /** Dropping a table entry is harmless when nobody waits for it any more, or someone owes it. */
  lemma RemoveKeepsCalls(core: Core, core': Core, c: Calls, lastConn: nat, notifier: map<nat, nat>, n: nat)
    requires CallsOk(core, c, lastConn, notifier)
    requires core' == core.(pending := core.pending - {RequestID(n)})
    requires n in c.requests && c.requests[n].status != Waiting
    ensures CallsOk(core', c, lastConn, notifier)
  {
    forall m | m in c.requests ensures RequestOk(core', c, lastConn, m) {
      RequestIDInjective(n, m);
      assert RequestOk(core, c, lastConn, m);
    }
    forall id | id in core'.pending ensures EntryOk(core', c, id, core'.pending[id]) {
      assert EntryOk(core, c, id, core.pending[id]);
    }
  }

  lemma UnregisterKeepsInv(s: System, n: nat)
    requires Inv(s)
    ensures Inv(Next(s, UnregisterStep(n)))
  {
    var s' := UnregisterNext(s, n);
    if s' != s {
      RequestChangeKeepsCalls(s.core, s.calls, s'.calls, s.conns.lastConn, s.conns.notifier, n, s'.calls.requests[n]);
      RemoveKeepsCalls(s.core, s'.core, s'.calls, s.conns.lastConn, s.conns.notifier, n);
    }
  }

  lemma DispatchKeepsInv(s: System, id: string)
    requires Inv(s)
    ensures Inv(DispatchNext(s, id))
  {
    var s' := DispatchNext(s, id);
    if id in s.core.pending {
      var n := s.core.pending[id];
      assert EntryOk(s.core, s.calls, id, n);
      forall m | m in s'.calls.requests ensures RequestOk(s'.core, s'.calls, s.conns.lastConn, m) {
        RequestIDInjective(n, m);
        assert RequestOk(s.core, s.calls, s.conns.lastConn, m);
      }
      forall other | other in s'.core.pending ensures EntryOk(s'.core, s'.calls, other, s'.core.pending[other]) {
        assert EntryOk(s.core, s.calls, other, s.core.pending[other]);
      }
      forall m | m in s'.calls.debts ensures DebtOk(s'.calls, s.conns.notifier, m) {
        assert m != n ==> DebtOk(s.calls, s.conns.notifier, m);
      }
    }
  }

  lemma PayKeepsCalls(core: Core, c: Calls, lastConn: nat, notifier: map<nat, nat>, n: nat)
    requires CallsOk(core, c, lastConn, notifier) && n in c.debts
    ensures CallsOk(core, PayNext(c, n), lastConn, notifier)
  {
    var c' := PayNext(c, n);
    assert DebtOk(c, notifier, n) && RequestOk(core, c, lastConn, n);
    forall m | m in c'.requests ensures RequestOk(core, c', lastConn, m) {
      assert RequestOk(core, c, lastConn, m);
    }
    forall id | id in core.pending ensures EntryOk(core, c', id, core.pending[id]) {
      assert EntryOk(core, c, id, core.pending[id]);
    }
    forall m | m in c'.debts ensures DebtOk(c', notifier, m) {
      assert DebtOk(c, notifier, m);
    }
  }

  lemma PayKeepsInv(s: System, n: nat)
    requires Inv(s)
    ensures Inv(s.(calls := PayNext(s.calls, n)))
  {
    if n in s.calls.debts { PayKeepsCalls(s.core, s.calls, s.conns.lastConn, s.conns.notifier, n); }
  }

  /** Taking the whole table at the end of a connection turns every entry into a debt. */
  lemma TakeAllKeepsCalls(core: Core, core': Core, c: Calls, c': Calls, conns: Conns, payer: nat, outcome: Outcome)
    requires CallsOk(core, c, conns.lastConn, conns.notifier) && outcome != Reply
    requires core'.pending == map[] && core.connID !in conns.notifier
    requires c' == c.(debts := Owe(c.debts, core.pending.Values, Debt(payer, outcome)))
    ensures CallsOk(core', c', conns.lastConn, conns.notifier[core.connID := payer])
  {
    forall n | n in c'.requests ensures RequestOk(core', c', conns.lastConn, n) {
      assert RequestOk(core, c, conns.lastConn, n);
      if RequestID(n) in core.pending {
        assert EntryOk(core, c, RequestID(n), core.pending[RequestID(n)]);
        RequestIDInjective(n, core.pending[RequestID(n)]);
        assert n in core.pending.Values;
      }
    }
    forall n | n in c'.debts ensures DebtOk(c', conns.notifier[core.connID := payer], n) {
      if n in core.pending.Values {
        var id :| id in core.pending && core.pending[id] == n;
        assert EntryOk(core, c, id, n);
      } else {
        assert DebtOk(c, conns.notifier, n);
      }
    }
  }

  /** The current process goes to be closed. */
  lemma CurrentIsHanded(p: nat, c: Conns, c': Conns)
    requires ProcessesOk(Some(p), c)
    requires c'.toClose == c.toClose + {p} && c'.attempts == c.attempts && c'.closes == c.closes
             && c'.processes == c.processes
    ensures ProcessesOk(None, c')
  {
    assert forall q: nat | ProcessOk(Some(p), c, q) :: ProcessOk(None, c', q);
  }

  lemma DropKeepsInv(s: System, connID: nat)
    requires Inv(s)
    ensures Inv(DropNext(s, connID))
  {
    var s' := DropNext(s, connID);
    if s.core.proc.Some? && s.core.connID == connID {
      TakeAllKeepsCalls(s.core, s'.core, s.calls, s'.calls, s.conns, s.threads, Disconnected);
      assert !s.core.connecting && s.conns.attempts == map[];
      CurrentIsHanded(s.core.proc.value, s.conns, s'.conns);
      assert s.threads !in s.conns.loops;
    }
  }

  lemma CloseConnectedKeepsInv(s: System)
    requires Inv(s) && s.core.proc.Some?
    ensures Inv(CloseNext(s))
  {
    var s' := CloseNext(s);
    TakeAllKeepsCalls(s.core, s'.core, s.calls, s'.calls, s.conns, s.threads, ClosedOutcome);
    assert s.conns.attempts == map[];
    CurrentIsHanded(s.core.proc.value, s.conns, s'.conns);
  }

  lemma CloseIdleSetsFlag(s: System)
    requires CoreOk(s.core) && s.core.proc.None? && !s.core.closed
    ensures CloseNext(s) == s.(core := s.core.(closed := true), threads := s.threads + 1)
  {
    assert s.core.pending.Values == {};
    assert Owe(s.calls.debts, {}, Debt(s.threads, ClosedOutcome)) == s.calls.debts;
  }

  lemma CallsStay(core: Core, core': Core, c: Calls, lastConn: nat, lastConn': nat, notifier: map<nat, nat>)
    requires CallsOk(core, c, lastConn, notifier) && lastConn <= lastConn'
    requires core'.pending == core.pending && (core.pending != map[] ==> core'.connID == core.connID)
    ensures CallsOk(core', c, lastConn', notifier)
  {
    forall n | n in c.requests ensures RequestOk(core', c, lastConn', n) {
      assert RequestOk(core, c, lastConn, n);
    }
    forall id | id in core'.pending ensures EntryOk(core', c, id, core'.pending[id]) {
      assert EntryOk(core, c, id, core.pending[id]);
    }
  }

  lemma CloseIdleKeepsInv(s: System)
    requires Inv(s) && s.core.proc.None?
    ensures Inv(CloseNext(s))
  {
    if !s.core.closed {
      CloseIdleSetsFlag(s);
      CallsStay(s.core, s.core.(closed := true), s.calls, s.conns.lastConn, s.conns.lastConn, s.conns.notifier);
    }
  }

  lemma CloseKeepsInv(s: System)
    requires Inv(s)
    ensures Inv(CloseNext(s))
  {
    if s.core.proc.Some? { CloseConnectedKeepsInv(s); } else { CloseIdleKeepsInv(s); }
  }

  lemma CloseProcessKeepsInv(s: System, p: nat)
    requires Inv(s)
    ensures Inv(s.(conns := CloseProcessNext(s.conns, p)))
  {
    assert forall q: nat | ProcessOk(s.core.proc, s.conns, q) ::
           ProcessOk(s.core.proc, CloseProcessNext(s.conns, p), q);
  }

  lemma LeaveLoopKeepsInv(s: System, l: nat)
    requires Inv(s)
    ensures Inv(LeaveLoopNext(s, l))
  {
    var s' := LeaveLoopNext(s, l);
    if s' != s {
      OnlyOne(s.conns.loops, l);
      assert forall p: nat | ProcessOk(s.core.proc, s.conns, p) :: ProcessOk(s'.core.proc, s'.conns, p);
      assert forall n | n in s.calls.requests && RequestOk(s.core, s.calls, s.conns.lastConn, n) ::
        RequestOk(s'.core, s'.calls, s.conns.lastConn, n);
    }
  }

  predicate IsConnecting(a: Step) {
    a.EnterConnect? || a.StartFails? || a.StartSucceeds? || a.NumberConnection? || a.InstallStep?
  }

  predicate IsCalling(a: Step) {
    a.DrawRequest? || a.RegisterStep? || a.Receive? || a.GiveUp? || a.UnregisterStep?
  }

  lemma ConnectingKeepsInv(s: System, a: Step)
    requires Inv(s) && IsConnecting(a)
    ensures Inv(Next(s, a))
  {
    match a
    case EnterConnect => EnterKeepsInv(s);
    case StartFails(t) => StartFailsKeepsInv(s, t);
    case StartSucceeds(t) => StartSucceedsKeepsInv(s, t);
    case NumberConnection(t) => NumberKeepsInv(s, t);
    case InstallStep(t) => InstallKeepsInv(s, t);
  }

  lemma CallingKeepsInv(s: System, a: Step)
    requires Inv(s) && IsCalling(a)
    ensures Inv(Next(s, a))
  {
    match a
    case DrawRequest => DrawKeepsInv(s);
    case RegisterStep(n) => RegisterKeepsInv(s, n);
    case Receive(n) => ReceiveKeepsInv(s, n);
    case GiveUp(n) => GiveUpKeepsInv(s, n);
    case UnregisterStep(n) => UnregisterKeepsInv(s, n);
  }

  lemma EndingKeepsInv(s: System, a: Step)
    requires Inv(s) && !IsConnecting(a) && !IsCalling(a)
    ensures Inv(Next(s, a))
  {
    match a
    case Dispatch(id) => DispatchKeepsInv(s, id);
    case Pay(n) => PayKeepsInv(s, n);
    case DropReport(connID) => DropKeepsInv(s, connID);
    case CloseProcess(p) => CloseProcessKeepsInv(s, p);
    case LeaveLoopStep(l) => LeaveLoopKeepsInv(s, l);
    case CloseStep => CloseKeepsInv(s);
  }

  lemma NextKeepsInv(s: System, a: Step)
    requires Inv(s)
    ensures Inv(Next(s, a))
  {
    if IsConnecting(a) {
      ConnectingKeepsInv(s, a);
    } else if IsCalling(a) {
      CallingKeepsInv(s, a);
    } else {
      EndingKeepsInv(s, a);
    }
  }

  /** Every interleaving of every number of goroutines. */
  ghost function Run(s: System, steps: seq<Step>): (s': System)
    requires Inv(s)
    ensures Inv(s')
    decreases |steps|
  {
    if steps == [] then s
    else
      NextKeepsInv(s, steps[0]);
      Run(Next(s, steps[0]), steps[1..])
  }

  lemma StartIsOk()
    ensures Inv(START)
  {
  }

  // ----- what follows for callers -----

  /** Each request is answered at most once, no send finds its channel full, and a pending entry always
      belongs to a registered request of the current connection. */
  lemma AnsweredAtMostOnce(s: System, steps: seq<Step>, n: nat)
    requires Inv(s) && n in Run(s, steps).calls.requests
    ensures var t := Run(s, steps);
            && t.calls.overflows == 0
            && t.calls.requests[n].answers <= 1 && |t.calls.requests[n].channel| <= 1
            && (RequestID(n) in t.core.pending ==> t.calls.requests[n].conn == t.core.connID)
  {
    var t := Run(s, steps);
    assert RequestOk(t.core, t.calls, t.conns.lastConn, n);
    if RequestID(n) in t.core.pending {
      assert EntryOk(t.core, t.calls, RequestID(n), t.core.pending[RequestID(n)]);
      RequestIDInjective(n, t.core.pending[RequestID(n)]);
    }
  }

  /** A caller whose connection is gone: it has an outcome in its channel, or one on its way from the
      goroutine that ended the connection or from a dispatcher that took its reply before the end. */
  lemma NoCallerIsStranded(s: System, steps: seq<Step>, n: nat)
    requires Inv(s) && n in Run(s, steps).calls.requests
    requires var t := Run(s, steps);
             t.calls.requests[n].status == Waiting && t.calls.requests[n].conn != t.core.connID
    ensures var t := Run(s, steps);
            var k := t.calls.requests[n].conn;
            || t.calls.requests[n].channel != []
            || (n in t.calls.debts && t.calls.debts[n].outcome == Reply)
            || (n in t.calls.debts && k in t.conns.notifier && t.calls.debts[n].payer == t.conns.notifier[k])
  {
    var t := Run(s, steps);
    assert RequestOk(t.core, t.calls, t.conns.lastConn, n);
    if RequestID(n) in t.core.pending {
      assert EntryOk(t.core, t.calls, RequestID(n), t.core.pending[RequestID(n)]);
      RequestIDInjective(n, t.core.pending[RequestID(n)]);
    }
    if n in t.calls.debts { assert DebtOk(t.calls, t.conns.notifier, n); }
  }

  /** Once the goroutine that ended connection `k` has finished notifying, a caller that still waits on `k`
      has an empty channel exactly when a dispatcher took its entry before the end and has yet to put the
      reply there. */
  lemma NotifiedMeansAnswered(s: System, steps: seq<Step>, n: nat, k: nat)
    requires Inv(s) && n in Run(s, steps).calls.requests
    requires var t := Run(s, steps);
             && k in t.conns.notifier
             && (forall m | m in t.calls.debts :: t.calls.debts[m].payer != t.conns.notifier[k])
             && t.calls.requests[n].status == Waiting && t.calls.requests[n].conn == k
    ensures var t := Run(s, steps);
            t.calls.requests[n].channel == [] <==> n in t.calls.debts && t.calls.debts[n].outcome == Reply
  {
    var t := Run(s, steps);
    assert t.core.proc.Some? ==> CurrentOk(t.core.connID, t.conns);
    assert RequestOk(t.core, t.calls, t.conns.lastConn, n);
    if n in t.calls.debts { assert DebtOk(t.calls, t.conns.notifier, n); }
    NoCallerIsStranded(s, steps, n);
  }

  // ----- a caller between its dispatcher and the end of its connection -----

  /** The bridge while its first attempt is at this point. */
  function Attempting(a: Attempt): System {
    START.(core := NEW_CORE.(connecting := true), threads := 1,
           conns := START.conns.(attempts := map[0 := a], processes := if a.Starting? then 0 else 1,
                                 lastConn := if a.Numbered? then 1 else 0))
  }

  /** The bridge on its first connection. */
  function FirstConnection(pending: map<string, nat>, calls: Calls, threads: nat): System {
    System(NEW_CORE.(proc := Some(0), connID := 1, pending := pending), threads, calls,
           START.conns.(lastConn := 1, processes := 1, installs := [1]))
  }

  const CALLING := Calls(1, {}, map[1 := Request(1, [], Waiting, 0)], map[], 0)
  const OWED := CALLING.(debts := map[1 := Debt(1, Reply)])

  /** The first connection is dropped while a dispatcher holds the only reply. */
  const CUT_OFF := System(NEW_CORE.(reconnecting := true), 3, OWED,
                          Conns(1, map[], {2}, 1, {0}, map[], [1], [1], map[1 := 2]))

  lemma AttemptSteps()
    ensures Next(START, EnterConnect) == Attempting(Starting)
    ensures Next(Attempting(Starting), StartSucceeds(0)) == Attempting(Started(0))
    ensures Next(Attempting(Started(0)), NumberConnection(0)) == Attempting(Numbered(0, 1))
  {
  }

  lemma ConnectSteps()
    ensures Next(Attempting(Numbered(0, 1)), InstallStep(0)) == FirstConnection(map[], START.calls, 1)
    ensures Next(FirstConnection(map[], START.calls, 1), DrawRequest) ==
            FirstConnection(map[], Calls(1, {1}, map[], map[], 0), 1)
  {
    assert map[0 := Numbered(0, 1)] - {0} == map[];
  }

  lemma CallSteps()
    ensures Next(FirstConnection(map[], Calls(1, {1}, map[], map[], 0), 1), RegisterStep(1)) ==
            FirstConnection(map[RequestID(1) := 1], CALLING, 1)
    ensures Next(FirstConnection(map[RequestID(1) := 1], CALLING, 1), Dispatch(RequestID(1))) ==
            FirstConnection(map[], OWED, 2)
  {
    var empty: set<nat> := {1} - {1};
    assert empty == {};
    assert map[RequestID(1) := 1] - {RequestID(1)} == map[];
  }

  lemma CutOffStep()
    ensures Next(FirstConnection(map[], OWED, 2), DropReport(1)) == CUT_OFF
  {
    var pending: map<string, nat> := map[];
    assert pending.Values == {};
    assert Owe(OWED.debts, {}, Debt(2, Disconnected)) == OWED.debts;
  }

  lemma {:induction false} RunSnoc(s: System, steps: seq<Step>, a: Step)
    requires Inv(s)
    ensures Run(s, steps + [a]) == Next(Run(s, steps), a)
    decreases |steps|
  {
    if steps == [] {
      assert ([] + [a])[1..] == [];
    } else {
      assert (steps + [a])[1..] == steps[1..] + [a];
      NextKeepsInv(s, steps[0]);
      RunSnoc(Next(s, steps[0]), steps[1..], a);
    }
  }

  lemma Extend(steps: seq<Step>, a: Step, s: System, s': System) returns (more: seq<Step>)
    requires Inv(START) && Run(START, steps) == s && Next(s, a) == s'
    ensures Run(START, more) == s'
  {
    more := steps + [a];
    RunSnoc(START, steps, a);
  }

  lemma ReachAttempt() returns (steps: seq<Step>)
    requires Inv(START)
    ensures Run(START, steps) == Attempting(Numbered(0, 1))
  {
    AttemptSteps();
    steps := Extend([], EnterConnect, START, Attempting(Starting));
    steps := Extend(steps, StartSucceeds(0), Attempting(Starting), Attempting(Started(0)));
    steps := Extend(steps, NumberConnection(0), Attempting(Started(0)), Attempting(Numbered(0, 1)));
  }

  lemma ReachCall() returns (steps: seq<Step>)
    requires Inv(START)
    ensures Run(START, steps) == FirstConnection(map[], Calls(1, {1}, map[], map[], 0), 1)
  {
    steps := ReachAttempt();
    ConnectSteps();
    var connected := FirstConnection(map[], START.calls, 1);
    steps := Extend(steps, InstallStep(0), Attempting(Numbered(0, 1)), connected);
    steps := Extend(steps, DrawRequest, connected, FirstConnection(map[], Calls(1, {1}, map[], map[], 0), 1));
  }

  lemma ReachOwed() returns (steps: seq<Step>)
    requires Inv(START)
    ensures Run(START, steps) == FirstConnection(map[], OWED, 2)
  {
    steps := ReachCall();
    CallSteps();
    var calling := FirstConnection(map[RequestID(1) := 1], CALLING, 1);
    steps := Extend(steps, RegisterStep(1), FirstConnection(map[], Calls(1, {1}, map[], map[], 0), 1), calling);
    steps := Extend(steps, Dispatch(RequestID(1)), calling, FirstConnection(map[], OWED, 2));
  }

  /** A drop can finish notifying while a caller of that connection waits on an empty channel. */
  lemma NotifiedButNotAnswered() returns (steps: seq<Step>)
    ensures Inv(START)
    ensures var t := Run(START, steps);
            && t.conns.notifier == map[1 := 2] && t.calls.debts == map[1 := Debt(1, Reply)]
            && t.calls.requests == map[1 := Request(1, [], Waiting, 0)]
  {
    StartIsOk();
    steps := ReachOwed();
    CutOffStep();
    steps := Extend(steps, DropReport(1), FirstConnection(map[], OWED, 2), CUT_OFF);
  }

  // ----- what follows for connections -----

  /** At most one connect attempt and one reconnect loop; installed ids strictly increase; a drop takes
      effect at most once per id; and every started process is in exactly one place. */
  lemma OneConnectionAtATime(s: System, steps: seq<Step>, p: nat)
    requires Inv(s)
    ensures var t := Run(s, steps);
            && |t.conns.attempts| <= 1 && |t.conns.loops| <= 1
            && StrictlyIncreasing(t.conns.installs) && StrictlyIncreasing(t.conns.drops)
            && (t.core.proc.None? ==> t.core.connID == 0 && t.core.pending == map[])
            && Holders(t.core.proc, t.conns, p) == (if p < t.conns.processes then 1 else 0)
            && CloseCount(t.conns.closes, p) <= 1
  {
    assert ProcessOk(Run(s, steps).core.proc, Run(s, steps).conns, p);
  }

  lemma StaysNotified(s: System, a: Step, connID: nat)
    requires connID in s.conns.notifier
    ensures connID in Next(s, a).conns.notifier
  {
  }

  /** Once a connection has ended, by a drop or by closing, no later report about it changes anything,
      whatever happened in between and however many connections came after it. */
  lemma {:induction false} EndedConnectionStaysEnded(s: System, steps: seq<Step>, connID: nat)
    requires Inv(s) && connID in s.conns.notifier
    ensures var t := Run(s, steps); Next(t, DropReport(connID)) == t && t.core.connID != connID
    decreases |steps|
  {
    if steps != [] {
      NextKeepsInv(s, steps[0]);
      StaysNotified(s, steps[0], connID);
      EndedConnectionStaysEnded(Next(s, steps[0]), steps[1..], connID);
    }
  }

  /** Closing is final: no process is installed any more, and none is current. */
  lemma {:induction false} ClosedForGood(s: System, steps: seq<Step>)
    requires Inv(s) && s.core.closed
    ensures var t := Run(s, steps);
            t.core.closed && t.core.proc.None? && t.conns.installs == s.conns.installs && t.core.pending == map[]
    decreases |steps|
  {
    if steps != [] {
      NextKeepsInv(s, steps[0]);
      StaysClosed(s, steps[0]);
      ClosedForGood(Next(s, steps[0]), steps[1..]);
    }
  }

  lemma StaysClosed(s: System, a: Step)
    requires s.core.closed
    ensures Next(s, a).core.closed && Next(s, a).conns.installs == s.conns.installs
  {
  }
}
