/** Folding a streamed assistant message into a thread's timeline: upserts replace the running entry,
    finalizing closes it. */
module Timeline {
  import opened Text

  datatype Kind = User | Assistant | System

  datatype State = Unset | Running | Success | Error

  datatype Entry = Entry(id: string, kind: Kind, title: string, body: string, state: State)

  predicate IsRunning(e: Entry) {
    e.kind == Assistant && e.state == Running
  }

  /** Index of the last running assistant entry, or -1. */
  function LastRunning(timeline: seq<Entry>): (i: int)
    ensures -1 <= i < |timeline|
    ensures i >= 0 ==> IsRunning(timeline[i])
    ensures forall k | i < k < |timeline| :: !IsRunning(timeline[k])
  {
    if timeline == [] then -1
    else if IsRunning(timeline[|timeline| - 1]) then |timeline| - 1
    else LastRunning(timeline[..|timeline| - 1])
  }

  method FindRunning(timeline: seq<Entry>) returns (runningIndex: int)
    ensures runningIndex == LastRunning(timeline)
  {
    runningIndex := -1;
    var index := |timeline| - 1;
    while index >= 0
      invariant -1 <= index < |timeline|
      invariant LastRunning(timeline) == LastRunning(timeline[..index + 1])
    {
      assert timeline[..index + 1][..index] == timeline[..index];
      var candidate := timeline[index];
      if candidate.kind == Assistant && candidate.state == Running {
        runningIndex := index;
        break;
      }
      index := index - 1;
    }
    assert timeline[..|timeline|] == timeline;
  }

  method UpsertAssistantStreamEntry(timeline: seq<Entry>, body: string, newID: string) returns (out: seq<Entry>)
    ensures out == Upsert(timeline, body, newID)
  {
    var trimmed := JsTrim(body);
    if trimmed == "" {
      return timeline;
    }
    var runningIndex := FindRunning(timeline);
    if runningIndex >= 0 {
      var running := timeline[runningIndex];
      if running.body == trimmed {
        return timeline;
      }
      out := timeline[runningIndex := running.(body := trimmed)];
    } else {
      out := timeline + [Entry(newID, Assistant, "Assistant", trimmed, Running)];
    }
  }

  method FinalizeAssistantStreamEntry(timeline: seq<Entry>, state: State, body: string, newID: string)
    returns (out: seq<Entry>)
    ensures out == Finalize(timeline, state, body, newID)
  {
    var trimmed := JsTrim(body);
    var runningIndex := FindRunning(timeline);
    if runningIndex >= 0 {
      var running := timeline[runningIndex];
      var closedBody := if trimmed != "" then trimmed else running.body;
      return timeline[runningIndex := running.(state := state, body := closedBody)];
    }
    if trimmed == "" {
      return timeline;
    }
    out := timeline + [Entry(newID, Assistant, "Assistant", trimmed, state)];
  }

  function Upsert(timeline: seq<Entry>, body: string, newID: string): seq<Entry> {
    var i, trimmed := LastRunning(timeline), JsTrim(body);
    if trimmed == "" then timeline
    else if i >= 0 then timeline[i := timeline[i].(body := trimmed)]
    else timeline + [Entry(newID, Assistant, "Assistant", trimmed, Running)]
  }

  /** A missing final body is the blank one. */
  function Finalize(timeline: seq<Entry>, state: State, body: string, newID: string): seq<Entry> {
    var i, trimmed := LastRunning(timeline), JsTrim(body);
    if i >= 0 then
      timeline[i := timeline[i].(state := state, body := if trimmed != "" then trimmed else timeline[i].body)]
    else if trimmed == "" then timeline
    else timeline + [Entry(newID, Assistant, "Assistant", trimmed, state)]
  }

  // ----- a whole stream -----

  /** Legacy noise entries are dropped instead of added. */
  datatype Op = Stream(body: string, newID: string) | Add(entry: Entry, noise: bool)

  function Apply(timeline: seq<Entry>, op: Op): seq<Entry> {
    match op
    case Stream(body, newID) => Upsert(timeline, body, newID)
    case Add(entry, noise) => if noise then timeline else timeline + [entry]
  }

  function Run(timeline: seq<Entry>, ops: seq<Op>): seq<Entry> {
    if ops == [] then timeline else Apply(Run(timeline, ops[..|ops| - 1]), ops[|ops| - 1])
  }

  // ----- what a stream amounts to -----

  /** The entries added besides the streamed one. */
  function Added(ops: seq<Op>): seq<Entry> {
    if ops == [] then []
    else
      var op, rest := ops[|ops| - 1], Added(ops[..|ops| - 1]);
      if op.Add? && !op.noise then rest + [op.entry] else rest
  }

  predicate Speaks(op: Op) {
    op.Stream? && JsTrim(op.body) != ""
  }

  /** The last non-blank body. */
  function LastBody(ops: seq<Op>): string {
    if ops == [] then ""
    else if Speaks(ops[|ops| - 1]) then JsTrim(ops[|ops| - 1].body)
    else LastBody(ops[..|ops| - 1])
  }

  /** Position of the first upsert with a non-blank body, or the number of operations. */
  function FirstSpoken(ops: seq<Op>): (k: nat)
    ensures k <= |ops|
    ensures k < |ops| ==> Speaks(ops[k])
    ensures forall i | 0 <= i < k :: !Speaks(ops[i])
  {
    if ops == [] || Speaks(ops[0]) then 0 else 1 + FirstSpoken(ops[1..])
  }

  ghost predicate NoneRunning(timeline: seq<Entry>) {
    forall i | 0 <= i < |timeline| :: !IsRunning(timeline[i])
  }

  ghost predicate AddsNoRunning(ops: seq<Op>) {
    forall i | 0 <= i < |ops| :: ops[i].Add? ==> !IsRunning(ops[i].entry)
  }

  lemma {:induction false} AddedIsNotRunning(ops: seq<Op>)
    requires AddsNoRunning(ops)
    ensures NoneRunning(Added(ops))
  {
    if ops != [] {
      AddedIsNotRunning(ops[..|ops| - 1]);
    }
  }

  /** A running entry with none after it is the one that is found. */
  lemma {:induction false} LastRunningInMiddle(before: seq<Entry>, e: Entry, rest: seq<Entry>)
    requires NoneRunning(rest) && IsRunning(e)
    ensures LastRunning(before + [e] + rest) == |before|
    decreases |rest|
  {
    if rest == [] {
      assert before + [e] + rest == before + [e];
    } else {
      var n := |rest| - 1;
      assert (before + [e] + rest)[..|before| + 1 + n] == before + [e] + rest[..n];
      LastRunningInMiddle(before, e, rest[..n]);
    }
  }

  /** The timeline of a stream: what was there, what was added before the first non-blank body, the
      streamed entry with the last non-blank body, and what was added after. */
  function Folded(timeline: seq<Entry>, ops: seq<Op>, state: State, body: string): seq<Entry> {
    var k := FirstSpoken(ops);
    if k == |ops| then timeline + Added(ops)
    else timeline + Added(ops[..k]) + [Streamed(ops, k, state, body)] + Added(ops[k..])
  }

  lemma {:induction false} FirstSpokenPrefix(ops: seq<Op>)
    requires ops != []
    ensures var k, n := FirstSpoken(ops[..|ops| - 1]), |ops| - 1;
            FirstSpoken(ops) == if k < n then k else if Speaks(ops[n]) then n else n + 1
  {
  }

  lemma UpsertInMiddle(before: seq<Entry>, e: Entry, rest: seq<Entry>, body: string, newID: string)
    requires NoneRunning(before) && NoneRunning(rest) && IsRunning(e) && JsTrim(body) != ""
    ensures Upsert(before + [e] + rest, body, newID) == before + [e.(body := JsTrim(body))] + rest
  {
    LastRunningInMiddle(before, e, rest);
  }

  lemma FinalizeInMiddle(before: seq<Entry>, e: Entry, rest: seq<Entry>, state: State, body: string, newID: string)
    requires NoneRunning(before) && NoneRunning(rest) && IsRunning(e)
    ensures Finalize(before + [e] + rest, state, body, newID) ==
            before + [e.(state := state, body := if JsTrim(body) != "" then JsTrim(body) else e.body)] + rest
  {
    LastRunningInMiddle(before, e, rest);
  }

  lemma UpsertAtEnd(timeline: seq<Entry>, body: string, newID: string)
    requires NoneRunning(timeline) && JsTrim(body) != ""
    ensures Upsert(timeline, body, newID) == timeline + [Entry(newID, Assistant, "Assistant", JsTrim(body), Running)]
  {
  }

  function Streamed(ops: seq<Op>, k: nat, state: State, body: string): Entry
    requires k < |ops| && ops[k].Stream?
  {
    Entry(ops[k].newID, Assistant, "Assistant", body, state)
  }

  lemma NoneRunningConcat(a: seq<Entry>, b: seq<Entry>)
    requires NoneRunning(a) && NoneRunning(b)
    ensures NoneRunning(a + b)
  {
  }

  lemma FoldedSilent(timeline: seq<Entry>, ops: seq<Op>)
    requires ops != [] && FirstSpoken(ops) == |ops|
    requires Run(timeline, ops[..|ops| - 1]) == timeline + Added(ops[..|ops| - 1])
    ensures Run(timeline, ops) == timeline + Added(ops)
  {
  }

  lemma FoldedFirst(timeline: seq<Entry>, ops: seq<Op>)
    requires ops != [] && FirstSpoken(ops) == |ops| - 1
    requires NoneRunning(timeline) && AddsNoRunning(ops)
    requires Run(timeline, ops[..|ops| - 1]) == timeline + Added(ops[..|ops| - 1])
    ensures Run(timeline, ops) == Folded(timeline, ops, Running, LastBody(ops))
  {
    var n := |ops| - 1;
    AddedIsNotRunning(ops[..n]);
    NoneRunningConcat(timeline, Added(ops[..n]));
    UpsertAtEnd(timeline + Added(ops[..n]), ops[n].body, ops[n].newID);
    AddedOne(ops[n]);
    assert ops[n..] == [ops[n]];
  }

  lemma AddedOne(op: Op)
    requires Speaks(op)
    ensures Added([op]) == []
  {
  }

  lemma FoldedKeeps(timeline: seq<Entry>, ops: seq<Op>, n: nat, state: State, body: string)
    requires n < |ops| && FirstSpoken(ops[..n]) == FirstSpoken(ops) < n
    ensures var k := FirstSpoken(ops);
            Folded(timeline, ops[..n], state, body) ==
            timeline + Added(ops[..k]) + [Streamed(ops, k, state, body)] + Added(ops[k..n])
  {
    var k := FirstSpoken(ops);
    assert ops[..n][..k] == ops[..k] && ops[..n][k..] == ops[k..n];
  }

  lemma AddedSnoc(ops: seq<Op>, k: nat)
    requires k < |ops|
    ensures var n, op := |ops| - 1, ops[|ops| - 1];
            Added(ops[k..]) == if op.Add? && !op.noise then Added(ops[k..n]) + [op.entry] else Added(ops[k..n])
  {
    assert ops[k..][..|ops| - 1 - k] == ops[k..|ops| - 1];
  }

  lemma ApplySpeaks(before: seq<Entry>, e: Entry, rest: seq<Entry>, op: Op)
    requires NoneRunning(before) && NoneRunning(rest) && IsRunning(e) && Speaks(op)
    ensures Apply(before + [e] + rest, op) == before + [e.(body := JsTrim(op.body))] + rest
  {
    UpsertInMiddle(before, e, rest, op.body, op.newID);
  }

  lemma StreamedSpeaks(ops: seq<Op>, k: nat)
    requires k < |ops| - 1 && ops[k].Stream? && Speaks(ops[|ops| - 1])
    ensures Streamed(ops, k, Running, LastBody(ops[..|ops| - 1])).(body := JsTrim(ops[|ops| - 1].body)) ==
            Streamed(ops, k, Running, LastBody(ops))
  {
  }

  lemma FoldedListens(before: seq<Entry>, ops: seq<Op>, k: nat)
    requires k < |ops| - 1 && Speaks(ops[k]) && !Speaks(ops[|ops| - 1])
    ensures Apply(before + [Streamed(ops, k, Running, LastBody(ops[..|ops| - 1]))] + Added(ops[k..|ops| - 1]),
                  ops[|ops| - 1]) ==
            before + [Streamed(ops, k, Running, LastBody(ops))] + Added(ops[k..])
  {
    AddedSnoc(ops, k);
  }

  lemma FoldedLater(timeline: seq<Entry>, ops: seq<Op>)
    requires ops != [] && FirstSpoken(ops) < |ops| - 1
    requires NoneRunning(timeline) && AddsNoRunning(ops)
    requires Run(timeline, ops[..|ops| - 1]) == Folded(timeline, ops[..|ops| - 1], Running, LastBody(ops[..|ops| - 1]))
    ensures Run(timeline, ops) == Folded(timeline, ops, Running, LastBody(ops))
  {
    var n, k := |ops| - 1, FirstSpoken(ops);
    FirstSpokenPrefix(ops);
    FoldedKeeps(timeline, ops, n, Running, LastBody(ops[..n]));
    if Speaks(ops[n]) {
      AddedIsNotRunning(ops[..k]);
      AddedIsNotRunning(ops[k..n]);
      NoneRunningConcat(timeline, Added(ops[..k]));
      ApplySpeaks(timeline + Added(ops[..k]), Streamed(ops, k, Running, LastBody(ops[..n])), Added(ops[k..n]), ops[n]);
      StreamedSpeaks(ops, k);
      AddedSnoc(ops, k);
    } else {
      FoldedListens(timeline + Added(ops[..k]), ops, k);
    }
  }

  /** Any interleaving of upserts and additions yields exactly the folded timeline. */
  lemma {:induction false} StreamFolds(timeline: seq<Entry>, ops: seq<Op>)
    requires NoneRunning(timeline) && AddsNoRunning(ops)
    ensures Run(timeline, ops) == Folded(timeline, ops, Running, LastBody(ops))
    decreases |ops|
  {
    if ops == [] {
      assert timeline + [] == timeline;
    } else {
      StreamFolds(timeline, ops[..|ops| - 1]);
      FirstSpokenPrefix(ops);
      if FirstSpoken(ops) == |ops| {
        FoldedSilent(timeline, ops);
      } else if FirstSpoken(ops) == |ops| - 1 {
        FoldedFirst(timeline, ops);
      } else {
        FoldedLater(timeline, ops);
      }
    }
  }

  /** At no time is more than one assistant entry running. */
  lemma {:induction false} AtMostOneRunning(timeline: seq<Entry>, ops: seq<Op>, i: nat, j: nat)
    requires NoneRunning(timeline) && AddsNoRunning(ops)
    requires i < |Run(timeline, ops)| && j < |Run(timeline, ops)|
    requires IsRunning(Run(timeline, ops)[i]) && IsRunning(Run(timeline, ops)[j])
    ensures i == j
  {
    var k := FirstSpoken(ops);
    StreamFolds(timeline, ops);
    AddedIsNotRunning(ops);
    AddedIsNotRunning(ops[..k]);
    AddedIsNotRunning(ops[k..]);
  }

  /** Finalizing a stream that said something leaves one closed entry in the place of the running one: it
      holds the given state and the final body, or else the last non-blank streamed body. */
  lemma FinalizeClosesTheStream(timeline: seq<Entry>, ops: seq<Op>, state: State, body: string, newID: string)
    requires NoneRunning(timeline) && AddsNoRunning(ops) && FirstSpoken(ops) < |ops|
    ensures Finalize(Run(timeline, ops), state, body, newID) ==
            Folded(timeline, ops, state, if JsTrim(body) != "" then JsTrim(body) else LastBody(ops))
  {
    var k := FirstSpoken(ops);
    StreamFolds(timeline, ops);
    AddedIsNotRunning(ops[..k]);
    AddedIsNotRunning(ops[k..]);
    NoneRunningConcat(timeline, Added(ops[..k]));
    FinalizeInMiddle(timeline + Added(ops[..k]), Streamed(ops, k, Running, LastBody(ops)), Added(ops[k..]),
                     state, body, newID);
  }

  /** Finalizing a stream that said nothing adds one entry for a non-blank final body, and nothing else. */
  lemma FinalizeAfterSilence(timeline: seq<Entry>, ops: seq<Op>, state: State, body: string, newID: string)
    requires NoneRunning(timeline) && AddsNoRunning(ops) && FirstSpoken(ops) == |ops|
    ensures Finalize(Run(timeline, ops), state, body, newID) ==
            timeline + Added(ops) +
            if JsTrim(body) == "" then [] else [Entry(newID, Assistant, "Assistant", JsTrim(body), state)]
  {
    StreamFolds(timeline, ops);
    AddedIsNotRunning(ops);
    assert NoneRunning(timeline + Added(ops));
  }
}
