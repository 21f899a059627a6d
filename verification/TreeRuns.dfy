/** Runs of the tree's actions: which threads there are after any of them, and what the last action has done. */
module TreeRuns {
  import opened Wrappers
  import opened Text
  import opened ThreadTree
  import opened TreeEdits
  import opened BindEdits
  import opened ProjectSync

  /** No workspace has a blank id. */
  ghost predicate Named(ws: seq<Workspace>) {
    forall i | 0 <= i < |ws| :: ws[i].id != ""
  }

  /** The thread ids after an action, told from those before it. */
  function IDsAfter(ids: set<string>, op: Op): set<string> {
    match op
    case Create(id, _) => ids + {id}
    case Fork(threadID, id, _) => if JsTrim(threadID) in ids then ids + {id} else ids
    case Remove(threadID) => ids - {JsTrim(threadID)}
    case Activate(_) => ids
    case BindTo(currentID, remoteID, _) =>
      if JsTrim(currentID) in ids && JsTrim(remoteID) != "" then ids - {JsTrim(currentID)} + {JsTrim(remoteID)} else ids
    case SyncFrom(_, _, _) => ids
  }

  function IDsAfterAll(ids: set<string>, ops: seq<Op>): set<string> {
    if ops == [] then ids else IDsAfter(IDsAfterAll(ids, ops[..|ops| - 1]), ops[|ops| - 1])
  }

  lemma SameNames(ws: seq<Workspace>, out: seq<Workspace>)
    requires Named(ws) && |out| == |ws| && forall i | 0 <= i < |ws| :: out[i].id == ws[i].id
    ensures Named(out)
  {
  }

  lemma AddedIDs(ws: seq<Workspace>, out: seq<Workspace>, k: nat, w: Workspace, id: string)
    requires OnlyChanges(ws, out, k, w) && IDs(w.sessions) == IDs(ws[k].sessions) + {id}
    ensures AllIDs(out) == AllIDs(ws) + {id}
  {
    forall x | x in AllIDs(ws) ensures x in AllIDs(out) {
      var i :| 0 <= i < |ws| && x in IDs(ws[i].sessions);
      assert x in IDs(out[i].sessions);
    }
    assert id in IDs(out[k].sessions);
  }

  lemma SameIDsAt(ws: seq<Workspace>, out: seq<Workspace>, k: nat, w: Workspace)
    requires OnlyChanges(ws, out, k, w) && IDs(w.sessions) == IDs(ws[k].sessions)
    ensures AllIDs(out) == AllIDs(ws)
  {
    forall x | x in AllIDs(ws) ensures x in AllIDs(out) {
      var i :| 0 <= i < |ws| && x in IDs(ws[i].sessions);
      assert x in IDs(out[i].sessions);
    }
  }

  lemma AppendIDs(sessions: seq<Thread>, added: Thread)
    ensures IDs(sessions + [added]) == IDs(sessions) + {added.id}
  {
    var out := sessions + [added];
    forall id | id in IDs(sessions) + {added.id} ensures id in IDs(out) {
      if id == added.id {
        assert out[|sessions|].id == id;
      } else {
        var i :| 0 <= i < |sessions| && sessions[i].id == id;
        assert out[i].id == id;
      }
    }
  }

  lemma PutSameID(sessions: seq<Thread>, i: nat, thread: Thread)
    requires i < |sessions| && thread.id == sessions[i].id
    ensures IDs(sessions[i := thread]) == IDs(sessions)
  {
    var out := sessions[i := thread];
    forall id | id in IDs(sessions) ensures id in IDs(out) {
      var k :| 0 <= k < |sessions| && sessions[k].id == id;
      assert out[k].id == id;
    }
  }

  /** Where a known thread is. */
  lemma KnownPlace(ws: seq<Workspace>, id: string) returns (p: Place)
    requires id in AllIDs(ws)
    ensures IsPlace(ws, p) && At(ws, p).id == id
  {
    var i :| 0 <= i < |ws| && id in IDs(ws[i].sessions);
    var k :| 0 <= k < |ws[i].sessions| && ws[i].sessions[k].id == id;
    p := Place(i, k);
  }

  lemma CreateIDs(t: Tree, id: string, title: string)
    requires WellFormed(t) && Named(t.workspaces) && Fresh(t, id)
    ensures AllIDs(CreateThread(t, id, title).workspaces) == AllIDs(t.workspaces) + {id}
    ensures Named(CreateThread(t, id, title).workspaces)
  {
    var a :| 0 <= a < |t.workspaces| && t.workspaces[a].id == t.activeWorkspaceID;
    CreateAdds(t, a, id, title);
    var out := CreateThread(t, id, title).workspaces;
    AppendIDs(t.workspaces[a].sessions, out[a].sessions[|t.workspaces[a].sessions|]);
    AddedIDs(t.workspaces, out, a, out[a], id);
    SameNames(t.workspaces, out);
  }

  lemma ForkKnownIDs(t: Tree, p: Place, threadID: string, id: string, title: string)
    requires WellFormed(t) && IsPlace(t.workspaces, p) && JsTrim(threadID) == At(t.workspaces, p).id && Fresh(t, id)
    ensures AllIDs(ForkThread(t, threadID, id, title).workspaces) == AllIDs(t.workspaces) + {id}
    ensures Named(t.workspaces) ==> Named(ForkThread(t, threadID, id, title).workspaces)
  {
    ForkAdds(t, p, threadID, id, title);
    var ws, out, k := t.workspaces, ForkThread(t, threadID, id, title).workspaces, p.workspace;
    AppendIDs(ws[k].sessions, out[k].sessions[|ws[k].sessions|]);
    AddedIDs(ws, out, k, out[k], id);
  }

  lemma ForkIDs(t: Tree, threadID: string, id: string, title: string)
    requires WellFormed(t) && Named(t.workspaces) && Fresh(t, id)
    ensures AllIDs(ForkThread(t, threadID, id, title).workspaces) ==
            IDsAfter(AllIDs(t.workspaces), Fork(threadID, id, title))
    ensures Named(ForkThread(t, threadID, id, title).workspaces)
  {
    if JsTrim(threadID) in AllIDs(t.workspaces) {
      var p := KnownPlace(t.workspaces, JsTrim(threadID));
      ForkKnownIDs(t, p, threadID, id, title);
    } else {
      ForkUnknown(t, threadID, id, title);
    }
  }

  lemma RemoveNames(ws: seq<Workspace>, id: string)
    requires Named(ws)
    ensures Named(RemoveFromAll(ws, id))
  {
  }

  lemma RemoveIDs(t: Tree, threadID: string)
    requires WellFormed(t) && Named(t.workspaces)
    ensures AllIDs(RemoveThread(t, threadID).workspaces) == AllIDs(t.workspaces) - {JsTrim(threadID)}
    ensures Named(RemoveThread(t, threadID).workspaces)
  {
    RemoveKeeps(t, threadID);
    RemoveNames(t.workspaces, JsTrim(threadID));
  }

  lemma ActivateIDs(t: Tree, id: string)
    requires WellFormed(t) && Named(t.workspaces)
    ensures AllIDs(ActivateThread(t, id).workspaces) == AllIDs(t.workspaces)
    ensures Named(ActivateThread(t, id).workspaces)
  {
    if id in AllIDs(t.workspaces) {
      var p := KnownPlace(t.workspaces, id);
      ActivatePoints(t, p);
      var out, k := ActivateThread(t, id).workspaces, p.workspace;
      PutSameID(t.workspaces[k].sessions, p.thread, At(t.workspaces, p).(unreadDone := false));
      SameIDsAt(t.workspaces, out, k, out[k]);
      SameNames(t.workspaces, out);
    } else {
      ActivateUnknown(t, id);
    }
  }

  lemma BindNames(ws: seq<Workspace>, sourceID: string, targetID: string, title: string)
    requires Named(ws)
    ensures Named(BindWorkspaces(ws, sourceID, targetID, title))
  {
    LocateIsLast(ws, sourceID);
    LocateIsLast(ws, targetID);
    SameNames(ws, BindWorkspaces(ws, sourceID, targetID, title));
  }

  lemma PlaceHasThread(ws: seq<Workspace>, p: Place)
    requires IsPlace(ws, p)
    ensures At(ws, p) in AllThreads(ws)
  {
    assert At(ws, p) in Threads(ws[p.workspace].sessions);
  }

  lemma BindKnownIDs(t: Tree, currentID: string, remoteID: string, title: string)
    requires WellFormed(t) && Named(t.workspaces) && JsTrim(currentID) in AllIDs(t.workspaces)
    requires JsTrim(remoteID) != "" && JsTrim(remoteID) != JsTrim(currentID)
    ensures var out := BindThreadID(t, currentID, remoteID, title).0.workspaces;
            Named(out) && AllIDs(out) == AllIDs(t.workspaces) - {JsTrim(currentID)} + {JsTrim(remoteID)}
  {
    BlankIsNoID(t.workspaces);
    var p := KnownPlace(t.workspaces, JsTrim(currentID));
    PlaceHasThread(t.workspaces, p);
    BindReplacesOneThread(t, currentID, remoteID, title, At(t.workspaces, p));
    BindTree(t, currentID, remoteID, title);
    BindNames(t.workspaces, JsTrim(currentID), JsTrim(remoteID), JsTrim(title));
  }

  lemma TitleAllIDs(ws: seq<Workspace>, id: string, title: string)
    requires Named(ws)
    ensures AllIDs(TitleAll(ws, id, title)) == AllIDs(ws) && Named(TitleAll(ws, id, title))
  {
    var out := TitleAll(ws, id, title);
    forall i | 0 <= i < |ws| ensures IDs(out[i].sessions) == IDs(ws[i].sessions) {
      TitleSessionsIDs(ws[i].sessions, id, title);
    }
    SameNames(ws, out);
  }

  lemma TitleSessionsIDs(sessions: seq<Thread>, id: string, title: string)
    ensures IDs(TitleSessions(sessions, id, title)) == IDs(sessions)
  {
    var out := TitleSessions(sessions, id, title);
    forall x | x in IDs(sessions) ensures x in IDs(out) {
      var k :| 0 <= k < |sessions| && sessions[k].id == x;
      assert out[k].id == x;
    }
  }

  lemma RetitledIDs(ws: seq<Workspace>, out: seq<Workspace>, p: Place, title: string)
    requires IsPlace(ws, p)
    requires OnlyChanges(ws, out, p.workspace, Put(ws[p.workspace], p.thread, TitledAs(At(ws, p), title)))
    ensures AllIDs(out) == AllIDs(ws) && (Named(ws) ==> Named(out))
  {
    PutSameID(ws[p.workspace].sessions, p.thread, TitledAs(At(ws, p), title));
    SameIDsAt(ws, out, p.workspace, out[p.workspace]);
  }

  lemma BindUnknownIDs(t: Tree, currentID: string, remoteID: string, title: string)
    requires WellFormed(t) && Named(t.workspaces) && JsTrim(currentID) !in AllIDs(t.workspaces)
    requires JsTrim(currentID) != JsTrim(remoteID)
    ensures var out := BindThreadID(t, currentID, remoteID, title).0.workspaces;
            Named(out) && AllIDs(out) == AllIDs(t.workspaces)
  {
    if JsTrim(remoteID) in AllIDs(t.workspaces) && JsTrim(currentID) != "" {
      var p := KnownPlace(t.workspaces, JsTrim(remoteID));
      BindUnknownRetitles(t, p, currentID, remoteID, title);
      RetitledIDs(t.workspaces, BindThreadID(t, currentID, remoteID, title).0.workspaces, p, JsTrim(title));
    } else {
      BindNothing(t, currentID, remoteID, title);
    }
  }

  lemma BindIDs(t: Tree, currentID: string, remoteID: string, title: string)
    requires WellFormed(t) && Named(t.workspaces)
    ensures var out := BindThreadID(t, currentID, remoteID, title).0.workspaces;
            Named(out) && AllIDs(out) == IDsAfter(AllIDs(t.workspaces), BindTo(currentID, remoteID, title))
  {
    BlankIsNoID(t.workspaces);
    if JsTrim(remoteID) == "" {
      BindNothing(t, currentID, remoteID, title);
    } else if JsTrim(currentID) == JsTrim(remoteID) {
      TitleAllIDs(t.workspaces, JsTrim(remoteID), JsTrim(title));
    } else if JsTrim(currentID) in AllIDs(t.workspaces) {
      BindKnownIDs(t, currentID, remoteID, title);
    } else {
      BindUnknownIDs(t, currentID, remoteID, title);
    }
  }

  lemma ApplyIDs(t: Tree, op: Op)
    requires WellFormed(t) && Named(t.workspaces) && Allowed(t, op) && !op.SyncFrom?
    ensures AllIDs(Apply(t, op).workspaces) == IDsAfter(AllIDs(t.workspaces), op) && Named(Apply(t, op).workspaces)
  {
    match op
    case Create(id, title) => CreateIDs(t, id, title);
    case Fork(threadID, id, title) => ForkIDs(t, threadID, id, title);
    case Remove(threadID) => RemoveIDs(t, threadID);
    case Activate(threadID) => ActivateIDs(t, threadID);
    case BindTo(currentID, remoteID, title) => BindIDs(t, currentID, remoteID, title);
  }

  /** After any run of actions without a sync, the thread ids are those the actions account for: created and forked
      ones come, removed ones go, a bind replaces one by another; nothing else comes or goes. */
  lemma {:induction false} ThreadsAreAccountedFor(t: Tree, ops: seq<Op>)
    requires WellFormed(t) && Named(t.workspaces) && AllowedRun(t, ops)
    requires forall i | 0 <= i < |ops| :: !ops[i].SyncFrom?
    ensures AllIDs(ProjectSync.Run(t, ops).workspaces) == IDsAfterAll(AllIDs(t.workspaces), ops)
    ensures Named(ProjectSync.Run(t, ops).workspaces)
    decreases |ops|
  {
    if ops != [] {
      var front := ops[..|ops| - 1];
      ThreadsAreAccountedFor(t, front);
      EveryRunIsWellFormed(t, front);
      ApplyIDs(ProjectSync.Run(t, front), ops[|ops| - 1]);
    }
  }

  lemma RunThen(t: Tree, ops: seq<Op>, op: Op)
    ensures ProjectSync.Run(t, ops + [op]) == Apply(ProjectSync.Run(t, ops), op)
  {
    assert (ops + [op])[..|ops|] == ops;
  }

  /** Whatever came before, activating a thread that is there makes it the active one. */
  lemma ActivatedIsActive(t: Tree, ops: seq<Op>, id: string)
    requires WellFormed(t) && AllowedRun(t, ops) && id in AllIDs(ProjectSync.Run(t, ops).workspaces)
    ensures ActiveThread(ProjectSync.Run(t, ops + [Activate(id)])) == id
  {
    EveryRunIsWellFormed(t, ops);
    var p := KnownPlace(ProjectSync.Run(t, ops).workspaces, id);
    ActivatePoints(ProjectSync.Run(t, ops), p);
    RunThen(t, ops, Activate(id));
  }

  /** Whatever came before, a sync that leaves workspaces leaves exactly those it computes from the tree so far. */
  lemma SyncedIsShown(t: Tree, ops: seq<Op>, projects: seq<Project>, opts: Options, fallback: Workspace)
    requires NextWorkspaces(ProjectSync.Run(t, ops).workspaces, projects, opts) != []
    ensures ProjectSync.Run(t, ops + [SyncFrom(projects, opts, fallback)]).workspaces ==
            NextWorkspaces(ProjectSync.Run(t, ops).workspaces, projects, opts)
  {
    RunThen(t, ops, SyncFrom(projects, opts, fallback));
  }
}
