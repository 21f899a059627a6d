/** What a snapshot takes from a remote thread. */
module Snapshots {
  import opened Text
  import opened SyncRepair

  /** How turn statuses are named here; any other status is none. */
  const STATUSES: map<string, string> :=
    map["completed" := "succeeded", "failed" := "failed", "interrupted" := "canceled", "inprogress" := "running"]

  lemma StatusTable(raw: string)
    ensures StatusOf(raw) == if raw in STATUSES then STATUSES[raw] else ""
  {
  }

  /** An agent message that is not blank. */
  predicate Speaks(item: Item) {
    item.kind == "agentmessage" && TrimSpace(item.text) != ""
  }

  predicate Concludes(item: Item) {
    Speaks(item) && item.phase == "final_answer"
  }

  /** The item counts: it speaks, and concludes if that is asked for. */
  predicate Counts(item: Item, concluding: bool) {
    if concluding then Concludes(item) else Speaks(item)
  }

  /** The last item that speaks, or that concludes. */
  predicate IsLast(items: seq<Item>, i: nat, concluding: bool) {
    i < |items| && Counts(items[i], concluding) && forall k | i < k < |items| :: !Counts(items[k], concluding)
  }

  predicate NoneCounts(items: seq<Item>, concluding: bool) {
    forall k | 0 <= k < |items| :: !Counts(items[k], concluding)
  }

  lemma SaidWhenCounts(item: Item, concluding: bool)
    ensures Said(item, concluding) == if Counts(item, concluding) then TrimSpace(item.text) else ""
  {
  }

  lemma LastSnoc(front: seq<Item>, item: Item, i: nat, concluding: bool)
    requires !Counts(item, concluding)
    ensures IsLast(front, i, concluding) ==> IsLast(front + [item], i, concluding)
    ensures NoneCounts(front, concluding) ==> NoneCounts(front + [item], concluding)
  {
  }

  /** What was said last is said by the last item that counts. */
  lemma {:induction false} LastSaidIsLast(items: seq<Item>, concluding: bool) returns (i: nat)
    ensures NoneCounts(items, concluding) ==> LastSaid(items, concluding) == ""
    ensures !NoneCounts(items, concluding) ==>
              IsLast(items, i, concluding) && LastSaid(items, concluding) == TrimSpace(items[i].text) != ""
  {
    i := 0;
    if items != [] {
      var front, item := items[..|items| - 1], items[|items| - 1];
      assert front + [item] == items;
      SaidWhenCounts(item, concluding);
      if Counts(item, concluding) {
        i := |items| - 1;
      } else {
        i := LastSaidIsLast(front, concluding);
        LastSnoc(front, item, i, concluding);
      }
    }
  }

  /** The text is that of the last final answer, or without one of the last agent message, or without one blank. */
  ghost predicate IsText(items: seq<Item>, text: string) {
    && (forall i: nat | IsLast(items, i, true) :: text == TrimSpace(items[i].text))
    && (NoneCounts(items, true) ==> forall i: nat | IsLast(items, i, false) :: text == TrimSpace(items[i].text))
    && (NoneCounts(items, false) ==> text == "")
  }

  lemma TextIsTheLast(items: seq<Item>)
    ensures IsText(items, if LastSaid(items, true) != "" then LastSaid(items, true) else LastSaid(items, false))
  {
    var concluding := LastSaidIsLast(items, true);
    var speaking := LastSaidIsLast(items, false);
    forall i: nat | IsLast(items, i, true) ensures i == concluding { }
    forall i: nat | IsLast(items, i, false) ensures i == speaking { }
    if !NoneCounts(items, true) { assert Counts(items[concluding], false); }
  }

  /** A snapshot is about the last turn: its id, its status and its text; without turns only the title is left. */
  lemma SnapshotIsOfLastTurn(title: string, turns: seq<Turn>)
    ensures SnapshotOf(title, turns).title == TrimSpace(title)
    ensures turns == [] ==> SnapshotOf(title, turns) == Snapshot(TrimSpace(title), "", "", "")
    ensures turns != [] ==>
              var s, last := SnapshotOf(title, turns), turns[|turns| - 1];
              && s.runID == TrimSpace(last.id)
              && s.status == (if last.status in STATUSES then STATUSES[last.status] else "")
              && IsText(last.items, s.assistantText)
  {
    if turns != [] {
      StatusTable(turns[|turns| - 1].status);
      TextIsTheLast(turns[|turns| - 1].items);
    }
  }
}
