/** Running one command on many hosts: a dispatcher hands host indexes over an unbuffered channel to a
    fixed number of workers, which write into one slot per host and stop early on cancellation. */
module Fanout {

  datatype Host = Host(id: string)

  datatype Target = Target(host: Host, outcome: string)

  /** A result slot nobody has written. */
  const UNWRITTEN := Target(Host(""), "")

  function NotExecuted(host: Host): Target {
    Target(host, "not executed (context canceled before scheduling)")
  }

  function NormalizeFanout(fanout: int, hostCount: int): (n: int)
    ensures hostCount <= 0 ==> n == 0
    ensures hostCount > 0 ==> 1 <= n <= hostCount && (1 <= fanout <= hostCount ==> n == fanout)
    ensures 0 < hostCount < fanout ==> n == hostCount
    ensures fanout <= 0 < hostCount ==> n == if hostCount < 3 then hostCount else 3
  {
    if hostCount <= 0 then 0
    else
      var wanted := if fanout <= 0 then 3 else fanout;
      if wanted > hostCount then hostCount else wanted
  }

  /** What a worker writes: an outcome that names no host is given the job's. */
  function Fill(item: Target, host: Host): Target {
    if item.host.id == "" then item.(host := host) else item
  }

  function Reported(result: Target, host: Host): Target {
    if result.host.id != "" then result else NotExecuted(host)
  }

  /** The last pass over the results, in place. */
  method ReportSkipped(results: array<Target>, hosts: seq<Host>)
    requires results.Length == |hosts|
    modifies results
    ensures forall i | 0 <= i < |hosts| :: results[i] == Reported(old(results[i]), hosts[i])
  {
    for i := 0 to results.Length
      invariant forall k | 0 <= k < i :: results[k] == Reported(old(results[k]), hosts[k])
      invariant forall k | i <= k < |hosts| :: results[k] == old(results[k])
    {
      if results[i].host.id != "" {
        continue;
      }
      results[i] := NotExecuted(hosts[i]);
    }
  }

  // ----- dispatcher and workers -----

  /** Where a worker is: waiting for a job, running one, past its write, or returned. */
  datatype Worker = Idle | Running(job: nat) | Wrote | Exited

  /** `next` is the index the dispatcher offers; `closed` says it has closed the channel. The rest is
      history: the jobs in the order they were started, and what each finished run returned. */
  datatype System = System(
    hosts: seq<Host>,
    workers: seq<Worker>,
    next: nat,
    closed: bool,
    canceled: bool,
    results: seq<Target>,
    started: seq<nat>,
    returned: map<nat, Target>)

  function Start(hosts: seq<Host>, fanout: nat): System {
    System(hosts, seq(fanout, _ => Idle), 0, false, false, seq(|hosts|, _ => UNWRITTEN), [], map[])
  }

  datatype Step =
    | Cancel
    | HandOver(w: nat)
    | GiveUp
    | CloseJobs
    | Finish(w: nat, item: Target)
    | Check(w: nat)
    | Leave(w: nat)

  predicate Enabled(s: System, a: Step) {
    match a
    case Cancel => true
    case HandOver(w) => !s.closed && s.next < |s.hosts| && w < |s.workers| && s.workers[w] == Idle
    case GiveUp => !s.closed && s.next < |s.hosts| && s.canceled
    case CloseJobs => !s.closed && s.next == |s.hosts|
    case Finish(w, _) => w < |s.workers| && s.workers[w].Running?
    case Check(w) => w < |s.workers| && s.workers[w] == Wrote
    case Leave(w) => w < |s.workers| && s.workers[w] == Idle && s.closed
  }

  function Next(s: System, a: Step): System
    requires |s.results| == |s.hosts|
  {
    if !Enabled(s, a) then s
    else
      match a
      case Cancel => s.(canceled := true)
      case HandOver(w) => s.(workers := s.workers[w := Running(s.next)], started := s.started + [s.next],
                             next := s.next + 1)
      case GiveUp => s.(closed := true)
      case CloseJobs => s.(closed := true)
      case Finish(w, item) =>
        var job := s.workers[w].job;
        if job >= |s.hosts| then s
        else s.(results := s.results[job := Fill(item, s.hosts[job])],
                returned := s.returned[job := item],
                workers := s.workers[w := Wrote])
      case Check(w) => s.(workers := s.workers[w := if s.canceled then Exited else Idle])
      case Leave(w) => s.(workers := s.workers[w := Exited])
  }

  /** The dispatcher is through and every worker has returned. */
  predicate Done(s: System) {
    s.closed && forall w | 0 <= w < |s.workers| :: s.workers[w] == Exited
  }

  // ----- what every reachable state satisfies -----

  predicate RunsJob(s: System, w: nat, job: nat) {
    w < |s.workers| && s.workers[w] == Running(job)
  }

  /** A slot is written exactly when its job has returned. */
  ghost predicate SlotOk(s: System, job: nat)
    requires |s.results| == |s.hosts|
  {
    job < |s.hosts| ==>
      s.results[job] == if job in s.returned then Fill(s.returned[job], s.hosts[job]) else UNWRITTEN
  }

  /** A job is handed over once, and from then on it is running on one worker or has returned. */
  ghost predicate JobOk(s: System, job: nat) {
    && (job in s.returned ==> job < s.next)
    && (job < s.next && job !in s.returned ==> exists w :: RunsJob(s, w, job))
  }

  ghost predicate WorkerOk(s: System, w: nat) {
    w < |s.workers| ==>
      && (s.workers[w].Running? ==> s.workers[w].job < s.next && s.workers[w].job !in s.returned)
      && (s.workers[w] == Exited ==> s.canceled || s.closed)
      && forall v | 0 <= v < |s.workers| && v != w && s.workers[v].Running? :: s.workers[v] != s.workers[w]
  }

  ghost predicate Inv(s: System) {
    && |s.results| == |s.hosts| && s.next <= |s.hosts| && |s.started| == s.next
    && (s.closed ==> s.canceled || s.next == |s.hosts|)
    && (forall i | 0 <= i < |s.started| :: s.started[i] == i)
    && (forall job: nat :: SlotOk(s, job))
    && (forall job: nat :: JobOk(s, job))
    && (forall w: nat :: WorkerOk(s, w))
  }

  lemma StartIsOk(hosts: seq<Host>, fanout: nat)
    ensures Inv(Start(hosts, fanout))
  {
  }

  lemma JobKept(s: System, s': System, w: nat, job: nat)
    requires JobOk(s, job) && s'.returned == s.returned && s'.next == s.next
    requires |s'.workers| == |s.workers| && w < |s.workers| && !s.workers[w].Running?
    requires forall v | 0 <= v < |s.workers| && v != w :: s'.workers[v] == s.workers[v]
    ensures JobOk(s', job)
  {
    if job < s.next && job !in s.returned {
      var v :| RunsJob(s, v, job);
      assert RunsJob(s', v, job);
    }
  }

  lemma HandOverKeepsInv(s: System, w: nat)
    requires Inv(s) && Enabled(s, HandOver(w))
    ensures Inv(Next(s, HandOver(w)))
  {
    var s' := Next(s, HandOver(w));
    forall job: nat ensures JobOk(s', job) && SlotOk(s', job) {
      assert JobOk(s, job) && SlotOk(s, job);
      if job == s.next {
        assert RunsJob(s', w, job);
      } else if job < s.next && job !in s.returned {
        var v :| RunsJob(s, v, job);
        assert RunsJob(s', v, job);
      }
    }
    forall v: nat ensures WorkerOk(s', v) {
      assert WorkerOk(s, v) && JobOk(s, s.next);
      assert forall u: nat | u < |s.workers| && WorkerOk(s, u) && s.workers[u].Running? :: s.workers[u].job < s.next;
    }
  }

  lemma FinishKeepsInv(s: System, w: nat, item: Target)
    requires Inv(s) && Enabled(s, Finish(w, item))
    ensures Inv(Next(s, Finish(w, item)))
  {
    var s' := Next(s, Finish(w, item));
    assert WorkerOk(s, w);
    var done := s.workers[w].job;
    forall job: nat ensures JobOk(s', job) && SlotOk(s', job) {
      assert JobOk(s, job) && SlotOk(s, job);
      if job != done && job < s.next && job !in s.returned {
        var v :| RunsJob(s, v, job);
        assert RunsJob(s', v, job);
      }
    }
    forall v: nat ensures WorkerOk(s', v) { assert WorkerOk(s, v); }
  }

  /** A step that only moves a worker that is not running anything. */
  lemma MoveKeepsInv(s: System, s': System, w: nat)
    requires Inv(s) && w < |s.workers| && !s.workers[w].Running?
    requires s' == s.(workers := s'.workers)
             && (s'.workers == s.workers[w := Idle] || s'.workers == s.workers[w := Exited])
    requires s'.workers[w] == Exited ==> s.canceled || s.closed
    ensures Inv(s')
  {
    forall job: nat ensures JobOk(s', job) && SlotOk(s', job) {
      assert JobOk(s, job) && SlotOk(s, job);
      JobKept(s, s', w, job);
    }
    forall v: nat ensures WorkerOk(s', v) { assert WorkerOk(s, v); }
  }

  /** A step of the dispatcher or of the caller that leaves jobs, slots and workers alone. */
  lemma FlagKeepsInv(s: System, s': System)
    requires Inv(s) && s' == s.(closed := s'.closed, canceled := s'.canceled)
    requires (s.closed ==> s'.closed) && (s.canceled ==> s'.canceled)
             && (s'.closed ==> s'.canceled || s.next == |s.hosts|)
    ensures Inv(s')
  {
    forall job: nat ensures JobOk(s', job) && SlotOk(s', job) {
      assert JobOk(s, job) && SlotOk(s, job);
      if job < s.next && job !in s.returned {
        var v :| RunsJob(s, v, job);
        assert RunsJob(s', v, job);
      }
    }
    forall v: nat ensures WorkerOk(s', v) { assert WorkerOk(s, v); }
  }

  lemma NextKeepsInv(s: System, a: Step)
    requires Inv(s)
    ensures Inv(Next(s, a))
  {
    if Enabled(s, a) {
      match a
      case HandOver(w) => HandOverKeepsInv(s, w);
      case Finish(w, item) => FinishKeepsInv(s, w, item);
      case Check(w) => MoveKeepsInv(s, Next(s, a), w);
      case Leave(w) => MoveKeepsInv(s, Next(s, a), w);
      case Cancel => FlagKeepsInv(s, Next(s, a));
      case GiveUp => FlagKeepsInv(s, Next(s, a));
      case CloseJobs => FlagKeepsInv(s, Next(s, a));
    }
  }

  /** Any schedule of the workers and any point of cancellation. */
  ghost function Run(hosts: seq<Host>, fanout: nat, steps: seq<Step>): (s: System)
    ensures Inv(s) && s.hosts == hosts && |s.workers| == fanout
  {
    if steps == [] then
      StartIsOk(hosts, fanout);
      Start(hosts, fanout)
    else
      var s := Run(hosts, fanout, steps[..|steps| - 1]);
      NextKeepsInv(s, steps[|steps| - 1]);
      Next(s, steps[|steps| - 1])
  }

  // ----- what a caller gets -----

  function RunningJobs(workers: seq<Worker>): set<nat> {
    set w | 0 <= w < |workers| && workers[w].Running? :: workers[w].job
  }

  lemma RunningSnoc(workers: seq<Worker>, w: Worker)
    ensures RunningJobs(workers + [w]) == RunningJobs(workers) + if w.Running? then {w.job} else {}
  {
    var all := workers + [w];
    assert all[|workers|] == w;
    assert forall i | 0 <= i < |workers| :: all[i] == workers[i];
  }

  lemma {:induction false} FewRunning(workers: seq<Worker>)
    ensures |RunningJobs(workers)| <= |workers|
  {
    if workers == [] {
      assert RunningJobs(workers) == {};
    } else {
      var n := |workers| - 1;
      FewRunning(workers[..n]);
      RunningSnoc(workers[..n], workers[n]);
      assert workers[..n] + [workers[n]] == workers;
    }
  }

  /** At most `fanout` jobs run at once, no job runs on two workers, and the jobs were started in order,
      each at most once. */
  lemma RunsAreBounded(hosts: seq<Host>, fanout: nat, steps: seq<Step>)
    ensures var s := Run(hosts, fanout, steps);
            && |RunningJobs(s.workers)| <= fanout
            && (forall v, w | 0 <= v < w < |s.workers| && s.workers[v].Running? :: s.workers[v] != s.workers[w])
            && |s.started| <= |hosts| && forall i | 0 <= i < |s.started| :: s.started[i] == i
  {
    var s := Run(hosts, fanout, steps);
    FewRunning(s.workers);
    forall v, w | 0 <= v < w < |s.workers| && s.workers[v].Running? ensures s.workers[v] != s.workers[w] {
      assert WorkerOk(s, w);
    }
  }

  /** Every state that is not done has a step other than a cancellation. */
  lemma NeverStuck(hosts: seq<Host>, fanout: int, steps: seq<Step>) returns (a: Step)
    requires !Done(Run(hosts, NormalizeFanout(fanout, |hosts|), steps))
    ensures a != Cancel && Enabled(Run(hosts, NormalizeFanout(fanout, |hosts|), steps), a)
  {
    var n := NormalizeFanout(fanout, |hosts|);
    var s := Run(hosts, n, steps);
    if w :| 0 <= w < |s.workers| && s.workers[w] != Exited {
      match s.workers[w]
      case Running(_) => a := Finish(w, UNWRITTEN);
      case Wrote => a := Check(w);
      case Idle => a := if s.closed then Leave(w) else if s.next < |hosts| then HandOver(w) else CloseJobs;
    } else if s.next == |hosts| {
      a := CloseJobs;
    } else {
      assert WorkerOk(s, 0);
      a := GiveUp;
    }
  }

  function Weight(w: Worker): nat {
    match w
    case Idle => 1
    case Running(_) => 3
    case Wrote => 2
    case Exited => 0
  }

  function Weights(workers: seq<Worker>): nat {
    if workers == [] then 0 else Weight(workers[0]) + Weights(workers[1..])
  }

  function Remaining(s: System): nat
    requires s.next <= |s.hosts|
  {
    3 * (|s.hosts| - s.next) + (if s.closed then 0 else 1) + Weights(s.workers)
  }

  lemma {:induction false} WeightsUpdate(workers: seq<Worker>, w: nat, to: Worker)
    requires w < |workers|
    ensures Weights(workers[w := to]) == Weights(workers) - Weight(workers[w]) + Weight(to)
  {
    if w > 0 {
      assert workers[w := to][1..] == workers[1..][w - 1 := to];
      WeightsUpdate(workers[1..], w - 1, to);
    }
  }

  /** Every step other than a cancellation uses up some of a finite measure, so every schedule ends. */
  lemma StepsAreUsedUp(s: System, a: Step)
    requires Inv(s) && a != Cancel && Enabled(s, a)
    ensures Inv(Next(s, a)) && Remaining(Next(s, a)) < Remaining(s)
  {
    NextKeepsInv(s, a);
    match a
    case HandOver(w) => WeightsUpdate(s.workers, w, Running(s.next));
    case Finish(w, item) => assert WorkerOk(s, w); WeightsUpdate(s.workers, w, Wrote);
    case Check(w) => WeightsUpdate(s.workers, w, if s.canceled then Exited else Idle);
    case Leave(w) => WeightsUpdate(s.workers, w, Exited);
    case GiveUp =>
    case CloseJobs =>
  }

  // ----- cancellation -----

  function IfWaits(w: Worker): nat {
    if w == Idle then 1 else 0
  }

  /** The workers that wait for a job. */
  function Waiting(workers: seq<Worker>): nat {
    if workers == [] then 0 else IfWaits(workers[0]) + Waiting(workers[1..])
  }

  lemma {:induction false} WaitingUpdate(workers: seq<Worker>, w: nat, to: Worker)
    requires w < |workers|
    ensures Waiting(workers[w := to]) == Waiting(workers) - IfWaits(workers[w]) + IfWaits(to)
  {
    if w > 0 {
      assert workers[w := to][1..] == workers[1..][w - 1 := to];
      WaitingUpdate(workers[1..], w - 1, to);
    }
  }

  /** Once cancelled, a worker that takes a job does not come back for another one. */
  lemma CancelledStep(s: System, a: Step)
    requires Inv(s) && s.canceled
    ensures var s' := Next(s, a);
            s'.canceled && |s'.started| + Waiting(s'.workers) <= |s.started| + Waiting(s.workers)
  {
    if Enabled(s, a) {
      match a
      case HandOver(w) => WaitingUpdate(s.workers, w, Running(s.next));
      case Finish(w, item) => assert WorkerOk(s, w); WaitingUpdate(s.workers, w, Wrote);
      case Check(w) => WaitingUpdate(s.workers, w, Exited);
      case Leave(w) => WaitingUpdate(s.workers, w, Exited);
      case Cancel =>
      case GiveUp =>
      case CloseJobs =>
    }
  }

  ghost function After(s: System, steps: seq<Step>): System
    requires Inv(s)
    decreases |steps|
  {
    if steps == [] then s
    else
      NextKeepsInv(s, steps[0]);
      After(Next(s, steps[0]), steps[1..])
  }

  lemma {:induction false} CancelledRun(s: System, steps: seq<Step>)
    requires Inv(s) && s.canceled
    ensures var s' := After(s, steps);
            s'.canceled && |s'.started| + Waiting(s'.workers) <= |s.started| + Waiting(s.workers)
    decreases |steps|
  {
    if steps != [] {
      NextKeepsInv(s, steps[0]);
      CancelledStep(s, steps[0]);
      CancelledRun(Next(s, steps[0]), steps[1..]);
    }
  }

  /** However a cancelled run goes on, it starts no more jobs than there were workers waiting for one. */
  lemma CancelWindsDown(s: System, steps: seq<Step>)
    requires Inv(s)
    ensures Inv(Next(s, Cancel))
    ensures var s' := After(Next(s, Cancel), steps);
            s'.canceled && |s'.started| <= |s.started| + Waiting(s.workers)
  {
    NextKeepsInv(s, Cancel);
    CancelledRun(Next(s, Cancel), steps);
  }

  // ----- the report -----

  /** Whether a job's outcome shows up in the report: it or its host has a name. */
  predicate Named(item: Target, host: Host) {
    item.host.id != "" || host.id != ""
  }

  /** Once all workers have returned: exactly the started jobs have run, the report of a job that ran is
      its outcome unless neither names a host, and every other host is reported as not executed. */
  lemma ReportIsFaithful(hosts: seq<Host>, fanout: nat, steps: seq<Step>, i: nat)
    requires Done(Run(hosts, fanout, steps)) && i < |hosts|
    ensures var s := Run(hosts, fanout, steps);
            && (i in s.returned <==> i < |s.started|)
            && (!s.canceled ==> i in s.returned)
            && Reported(s.results[i], hosts[i]) ==
               if i in s.returned && Named(s.returned[i], hosts[i]) then Fill(s.returned[i], hosts[i])
               else NotExecuted(hosts[i])
  {
    var s := Run(hosts, fanout, steps);
    assert JobOk(s, i) && SlotOk(s, i);
  }

  /** With named hosts, runs that answer for their own host and no cancellation, every host is run once
      and slot `i` is the outcome of host `i`. */
  lemma EveryHostIsRun(hosts: seq<Host>, fanout: nat, steps: seq<Step>)
    requires Done(Run(hosts, fanout, steps)) && !Run(hosts, fanout, steps).canceled
    requires forall i | 0 <= i < |hosts| :: hosts[i].id != ""
    requires var s := Run(hosts, fanout, steps);
             forall i: nat | i in s.returned && i < |hosts| :: s.returned[i].host.id in {"", hosts[i].id}
    ensures var s := Run(hosts, fanout, steps);
            && |s.started| == |hosts|
            && forall i: nat | i < |hosts| ::
                 && i in s.returned
                 && Reported(s.results[i], hosts[i]) == Target(hosts[i], s.returned[i].outcome)
  {
    var s := Run(hosts, fanout, steps);
    forall i: nat | i < |hosts|
      ensures i in s.returned && Reported(s.results[i], hosts[i]) == Target(hosts[i], s.returned[i].outcome)
    {
      ReportIsFaithful(hosts, fanout, steps, i);
    }
  }

  /** The single worker's state while it serves a single host without a name. */
  function Serving(w: Worker, next: nat, closed: bool, outcome: string): System {
    System([Host("")], [w], next, closed, false,
           if closed && !w.Running? then [Target(Host(""), outcome)] else [UNWRITTEN],
           if next == 0 then [] else [0],
           if closed && !w.Running? then map[0 := Target(Host(""), outcome)] else map[])
  }

  lemma ServingStarts(outcome: string)
    ensures Start([Host("")], 1) == Serving(Idle, 0, false, outcome)
    ensures Next(Serving(Idle, 0, false, outcome), HandOver(0)) == Serving(Running(0), 1, false, outcome)
    ensures Next(Serving(Running(0), 1, false, outcome), CloseJobs) == Serving(Running(0), 1, true, outcome)
  {
  }

  lemma ServingEnds(outcome: string)
    ensures Next(Serving(Running(0), 1, true, outcome), Finish(0, Target(Host(""), outcome))) ==
            Serving(Wrote, 1, true, outcome)
    ensures Next(Serving(Wrote, 1, true, outcome), Check(0)) == Serving(Idle, 1, true, outcome)
    ensures Next(Serving(Idle, 1, true, outcome), Leave(0)) == Serving(Exited, 1, true, outcome)
  {
  }

  lemma RunMore(hosts: seq<Host>, fanout: nat, steps: seq<Step>, a: Step) returns (more: seq<Step>)
    ensures Run(hosts, fanout, more) == Next(Run(hosts, fanout, steps), a)
  {
    more := steps + [a];
    assert more[..|steps|] == steps;
  }

  /** A run for a host without a name that names none either is reported as if it had not happened. */
  lemma NamelessRunIsLost(outcome: string) returns (steps: seq<Step>)
    ensures var s := Run([Host("")], 1, steps);
            && Done(s) && !s.canceled && s.started == [0]
            && 0 in s.returned && s.returned[0] == Target(Host(""), outcome)
            && Reported(s.results[0], Host("")) == NotExecuted(Host(""))
  {
    ServingStarts(outcome);
    ServingEnds(outcome);
    steps := RunMore([Host("")], 1, [], HandOver(0));
    steps := RunMore([Host("")], 1, steps, CloseJobs);
    steps := RunMore([Host("")], 1, steps, Finish(0, Target(Host(""), outcome)));
    steps := RunMore([Host("")], 1, steps, Check(0));
    steps := RunMore([Host("")], 1, steps, Leave(0));
    assert Run([Host("")], 1, steps) == Serving(Exited, 1, true, outcome);
  }
}
