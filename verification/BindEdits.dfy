/** Where a bind leaves every thread: which places change, which one goes, and what a bind without a source does. */
module BindEdits {
  import opened Wrappers
  import opened Text
  import opened ThreadTree
  import opened TreeEdits

  // ----- the first thread of each id -----

  /** The threads whose id no thread before them has. */
  function FirstOfEach(sessions: seq<Thread>): seq<Thread> {
    if sessions == [] then []
    else
      var front, last := sessions[..|sessions| - 1], sessions[|sessions| - 1];
      FirstOfEach(front) + if last.id in IDs(front) then [] else [last]
  }

  lemma IDsCons(sessions: seq<Thread>)
    requires sessions != []
    ensures IDs(sessions) == {sessions[0].id} + IDs(sessions[1..])
  {
    forall id | id in IDs(sessions[1..]) ensures id in IDs(sessions) {
      var i :| 0 <= i < |sessions| - 1 && sessions[1..][i].id == id;
      assert sessions[i + 1].id == id;
    }
  }

  lemma {:induction false} DedupSnoc(front: seq<Thread>, last: Thread, seen: set<string>)
    ensures Dedup(front + [last], seen) ==
            Dedup(front, seen) + if last.id in IDs(front) || last.id in seen then [] else [last]
    decreases |front|
  {
    if front == [] {
      assert front + [last] == [last] && [last][1..] == [];
      assert IDs(front) == {};
    } else {
      assert (front + [last])[1..] == front[1..] + [last];
      IDsCons(front);
      DedupSnoc(front[1..], last, if front[0].id in seen then seen else seen + {front[0].id});
    }
  }

  /** Exactly the first thread of each id is kept, in order. */
  lemma {:induction false} DedupKeepsFirst(sessions: seq<Thread>)
    ensures Dedup(sessions, {}) == FirstOfEach(sessions)
    decreases |sessions|
  {
    if sessions != [] {
      var front, last := sessions[..|sessions| - 1], sessions[|sessions| - 1];
      DedupKeepsFirst(front);
      DedupSnoc(front, last, {});
      assert front + [last] == sessions;
    }
  }

  // ----- what a bind does at each place -----

  lemma PlaceIsLast(ws: seq<Workspace>, p: Place)
    requires AllOk(ws) && AllApart(ws) && IsPlace(ws, p)
    ensures Locate(ws, At(ws, p).id) == Some(p)
  {
    var id := At(ws, p).id;
    assert WorkspaceOk(ws[p.workspace]);
    forall i, k | p.workspace < i < |ws| && 0 <= k < |ws[i].sessions| ensures ws[i].sessions[k].id != id {
      OnlyThere(ws, p, i);
      assert ws[i].sessions[k].id in IDs(ws[i].sessions);
    }
    LocateIsLast(ws, id);
    LastPlaceIsUnique(ws, id, Some(p), Locate(ws, id));
  }

  /** The sessions of workspace number `k`: at the target's place, or without one at the source's, stands the bound
      thread; with a target the source's place goes; all others stay in their order. */
  function BoundSessions(ws: seq<Workspace>, k: nat, source: Place, target: Option<Place>, bound: Thread): seq<Thread>
    requires k < |ws| && IsPlace(ws, source) && (target.Some? ==> IsPlace(ws, target.value))
  {
    var at, was := if target.Some? then target.value else source, ws[k].sessions;
    var put := if at.workspace == k then was[at.thread := bound] else was;
    if target.Some? && source.workspace == k then put[..source.thread] + put[source.thread + 1..] else put
  }

  lemma BoundSessionsDistinct(ws: seq<Workspace>, k: nat, source: Place, target: Option<Place>, bound: Thread)
    requires AllOk(ws) && AllApart(ws) && k < |ws| && IsPlace(ws, source)
    requires target.Some? ==> IsPlace(ws, target.value) && bound.id == At(ws, target.value).id
    requires target.None? ==> bound.id !in AllIDs(ws)
    ensures Distinct(BoundSessions(ws, k, source, target, bound))
  {
    var at, was := if target.Some? then target.value else source, ws[k].sessions;
    assert WorkspaceOk(ws[k]);
    if at.workspace == k { PutIDs(was, at.thread, bound); }
    var put := if at.workspace == k then was[at.thread := bound] else was;
    if source.workspace == k { DropIDs(put, source.thread); }
  }

  lemma BoundAt(ws: seq<Workspace>, k: nat, source: Place, target: Option<Place>, targetID: string, title: string)
    requires AllOk(ws) && AllApart(ws) && k < |ws| && IsPlace(ws, source) && At(ws, source).id != targetID
    requires target.Some? ==> IsPlace(ws, target.value) && At(ws, target.value).id == targetID
    requires target.None? ==> targetID !in AllIDs(ws)
    ensures var out := BoundWorkspace(ws, k, source, target, At(ws, source).id, targetID, title);
            && out == ws[k].(sessions := out.sessions, activeSessionID := out.activeSessionID)
            && out.sessions == BoundSessions(ws, k, source, target, Landed(ws, source, target, targetID, title))
  {
    var bound := Landed(ws, source, target, targetID, title);
    BoundSessionsDistinct(ws, k, source, target, bound);
    DedupKeepsDistinct(BoundSessions(ws, k, source, target, bound), {});
  }

  /** All workspaces after the bind. */
  lemma BoundAllAt(ws: seq<Workspace>, source: Place, target: Option<Place>, targetID: string, title: string)
    requires AllOk(ws) && AllApart(ws) && IsPlace(ws, source) && At(ws, source).id != targetID
    requires target.Some? ==> IsPlace(ws, target.value) && At(ws, target.value).id == targetID
    requires target.None? ==> targetID !in AllIDs(ws)
    ensures var out := BoundAll(ws, source, target, At(ws, source).id, targetID, title);
            forall k | 0 <= k < |ws| ::
              && out[k] == ws[k].(sessions := out[k].sessions, activeSessionID := out[k].activeSessionID)
              && out[k].sessions == BoundSessions(ws, k, source, target, Landed(ws, source, target, targetID, title))
  {
    forall k | 0 <= k < |ws|
      ensures var out := BoundWorkspace(ws, k, source, target, At(ws, source).id, targetID, title);
              && out == ws[k].(sessions := out.sessions, activeSessionID := out.activeSessionID)
              && out.sessions == BoundSessions(ws, k, source, target, Landed(ws, source, target, targetID, title))
    {
      BoundAt(ws, k, source, target, targetID, title);
    }
  }

  /** A job of the source is a job of the target afterwards. */
  function JobAfter(t: Tree, sourceID: string, targetID: string): string {
    if t.activeJobThreadID == sourceID then targetID else t.activeJobThreadID
  }

  lemma BindTree(t: Tree, currentID: string, remoteID: string, newTitle: string)
    requires JsTrim(currentID) != "" && JsTrim(remoteID) != "" && JsTrim(currentID) != JsTrim(remoteID)
    ensures var (out, id) := BindThreadID(t, currentID, remoteID, newTitle);
            && id == JsTrim(remoteID) && out.activeJobThreadID == JobAfter(t, JsTrim(currentID), id)
            && out.workspaces == BindWorkspaces(t.workspaces, JsTrim(currentID), id, JsTrim(newTitle))
            && (HolderOf(t.workspaces, JsTrim(currentID)) == None && t.activeWorkspaceID != "" ==>
                  out.activeWorkspaceID == t.activeWorkspaceID)
  {
  }

  lemma BindIsBoundAll(ws: seq<Workspace>, source: Place, target: Option<Place>, sourceID: string, targetID: string,
        title: string)
    requires Locate(ws, sourceID) == Some(source) && Locate(ws, targetID) == target
    requires IsPlace(ws, source) && (target.Some? ==> IsPlace(ws, target.value))
    ensures BindWorkspaces(ws, sourceID, targetID, title) == BoundAll(ws, source, target, sourceID, targetID, title)
  {
  }

  /** A bind puts the merged thread at the target's place and takes the source's away, or renames the source where it
      stands; every other thread of every workspace stays where it was, and so does every workspace. A job of the
      source becomes the target's. */
  lemma BindPlaces(t: Tree, source: Place, target: Option<Place>, currentID: string, remoteID: string, newTitle: string)
    requires WellFormed(t) && IsPlace(t.workspaces, source) && JsTrim(currentID) == At(t.workspaces, source).id
    requires JsTrim(remoteID) != "" && JsTrim(remoteID) != JsTrim(currentID)
    requires match target
             case Some(q) => IsPlace(t.workspaces, q) && At(t.workspaces, q).id == JsTrim(remoteID)
             case None => JsTrim(remoteID) !in AllIDs(t.workspaces)
    ensures var ws, (out, id) := t.workspaces, BindThreadID(t, currentID, remoteID, newTitle);
            var from, title := At(t.workspaces, source), JsTrim(newTitle);
            var bound := match target
                         case Some(q) => Merge(from, At(ws, q), title)
                         case None => Rename(from, JsTrim(remoteID), title);
            && id == JsTrim(remoteID) && out.activeJobThreadID == JobAfter(t, from.id, id)
            && |out.workspaces| == |ws|
            && forall k | 0 <= k < |ws| ::
                 var w := out.workspaces[k];
                 && w == ws[k].(sessions := w.sessions, activeSessionID := w.activeSessionID)
                 && w.sessions == BoundSessions(ws, k, source, target, bound)
  {
    var ws, sourceID, targetID, title := t.workspaces, JsTrim(currentID), JsTrim(remoteID), JsTrim(newTitle);
    PlaceOk(t, source);
    PlaceIsLast(ws, source);
    if target.Some? { PlaceIsLast(ws, target.value); } else { NotLocated(ws, targetID); }
    BindTree(t, currentID, remoteID, newTitle);
    BindIsBoundAll(ws, source, target, sourceID, targetID, title);
    BoundAllAt(ws, source, target, targetID, title);
  }

  // ----- a bind without a source -----

  /** The thread under a new title, unless there is none or it has it already. */
  function TitledAs(thread: Thread, title: string): Thread {
    if title == "" || JsTrim(thread.title) == title then thread else thread.(title := title)
  }

  lemma PutSame(ws: seq<Workspace>, p: Place)
    requires IsPlace(ws, p)
    ensures ws[p.workspace := Put(ws[p.workspace], p.thread, At(ws, p))] == ws
  {
    assert Put(ws[p.workspace], p.thread, At(ws, p)) == ws[p.workspace];
  }

  lemma UnknownRetitles(ws: seq<Workspace>, p: Place, sourceID: string, targetID: string, title: string)
    requires IsPlace(ws, p) && Locate(ws, sourceID) == None && Locate(ws, targetID) == Some(p)
    ensures BindWorkspaces(ws, sourceID, targetID, title) ==
            ws[p.workspace := Put(ws[p.workspace], p.thread, TitledAs(At(ws, p), title))]
  {
    PutSame(ws, p);
  }

  lemma UnknownIsNotHeld(ws: seq<Workspace>, id: string)
    requires id !in AllIDs(ws)
    ensures HolderOf(ws, id) == None
  {
    forall i | 0 <= i < |ws| ensures !Holds(ws[i], id) { HoldsIDs(ws[i], id); }
  }

  /** Binding an unknown thread to a known one only gives that one the title, and takes over a job. */
  lemma BindUnknownRetitles(t: Tree, p: Place, currentID: string, remoteID: string, newTitle: string)
    requires WellFormed(t) && IsPlace(t.workspaces, p) && JsTrim(remoteID) == At(t.workspaces, p).id
    requires JsTrim(currentID) != "" && JsTrim(currentID) !in AllIDs(t.workspaces)
    ensures var ws, (out, id) := t.workspaces, BindThreadID(t, currentID, remoteID, newTitle);
            && id == JsTrim(remoteID) && out.activeJobThreadID == JobAfter(t, JsTrim(currentID), id)
            && (t.activeWorkspaceID != "" ==> out.activeWorkspaceID == t.activeWorkspaceID)
            && OnlyChanges(ws, out.workspaces, p.workspace,
                           Put(ws[p.workspace], p.thread, TitledAs(At(ws, p), JsTrim(newTitle))))
  {
    var ws, sourceID, targetID := t.workspaces, JsTrim(currentID), JsTrim(remoteID);
    PlaceOk(t, p);
    PlaceIsLast(ws, p);
    NotLocated(ws, sourceID);
    UnknownIsNotHeld(ws, sourceID);
    PlaceIsKnown(ws, p);
    BindTree(t, currentID, remoteID, newTitle);
    UnknownRetitles(ws, p, sourceID, targetID, JsTrim(newTitle));
  }

  lemma PlaceIsKnown(ws: seq<Workspace>, p: Place)
    requires IsPlace(ws, p)
    ensures At(ws, p).id in AllIDs(ws)
  {
    PlaceID(ws, p);
  }

  lemma TitleSessionsAt(ws: seq<Workspace>, p: Place, i: nat, title: string)
    requires AllOk(ws) && AllApart(ws) && IsPlace(ws, p) && i < |ws| && title != ""
    ensures TitleSessions(ws[i].sessions, At(ws, p).id, title) ==
            if i == p.workspace then ws[i].sessions[p.thread := TitledAs(At(ws, p), title)] else ws[i].sessions
  {
    assert WorkspaceOk(ws[i]);
    if i != p.workspace {
      OnlyThere(ws, p, i);
      forall k | 0 <= k < |ws[i].sessions| ensures ws[i].sessions[k].id != At(ws, p).id {
        assert ws[i].sessions[k].id in IDs(ws[i].sessions);
      }
    }
  }

  lemma TitleAllAt(ws: seq<Workspace>, p: Place, title: string)
    requires AllOk(ws) && AllApart(ws) && IsPlace(ws, p) && title != ""
    ensures TitleAll(ws, At(ws, p).id, title) ==
            ws[p.workspace := Put(ws[p.workspace], p.thread, TitledAs(At(ws, p), title))]
  {
    forall i | 0 <= i < |ws|
      ensures TitleSessions(ws[i].sessions, At(ws, p).id, title) ==
              if i == p.workspace then ws[i].sessions[p.thread := TitledAs(At(ws, p), title)] else ws[i].sessions
    {
      TitleSessionsAt(ws, p, i, title);
    }
  }

  /** Binding a thread to itself only gives it the title. */
  lemma BindSelfRetitles(t: Tree, p: Place, currentID: string, remoteID: string, newTitle: string)
    requires WellFormed(t) && IsPlace(t.workspaces, p) && JsTrim(remoteID) == At(t.workspaces, p).id
    requires JsTrim(currentID) == JsTrim(remoteID)
    ensures var ws, (out, id) := t.workspaces, BindThreadID(t, currentID, remoteID, newTitle);
            && id == JsTrim(remoteID) && out == t.(workspaces := out.workspaces)
            && OnlyChanges(ws, out.workspaces, p.workspace,
                           Put(ws[p.workspace], p.thread, TitledAs(At(ws, p), JsTrim(newTitle))))
  {
    PlaceOk(t, p);
    if JsTrim(newTitle) == "" { PutSame(t.workspaces, p); } else { TitleAllAt(t.workspaces, p, JsTrim(newTitle)); }
  }

  /** Binding two unknown threads changes no workspace, and a blank id nothing at all. */
  lemma BindNothing(t: Tree, currentID: string, remoteID: string, newTitle: string)
    ensures JsTrim(currentID) !in AllIDs(t.workspaces) && JsTrim(remoteID) !in AllIDs(t.workspaces)
            && JsTrim(currentID) != JsTrim(remoteID) ==>
              BindThreadID(t, currentID, remoteID, newTitle).0.workspaces == t.workspaces
    ensures JsTrim(currentID) == "" ==> BindThreadID(t, currentID, remoteID, newTitle) == (t, JsTrim(remoteID))
    ensures JsTrim(remoteID) == "" ==> BindThreadID(t, currentID, remoteID, newTitle) == (t, JsTrim(currentID))
  {
    if JsTrim(currentID) !in AllIDs(t.workspaces) { NotLocated(t.workspaces, JsTrim(currentID)); }
    if JsTrim(remoteID) !in AllIDs(t.workspaces) { NotLocated(t.workspaces, JsTrim(remoteID)); }
  }
}
