/** What each edit of the workspace tree does to every thread and every workspace. */
module TreeEdits {
  import opened Wrappers
  import opened Text
  import opened ThreadTree

  /** Only workspace `k` changes. */
  ghost predicate OnlyChanges(ws: seq<Workspace>, out: seq<Workspace>, k: nat, w: Workspace) {
    k < |ws| && out == ws[k := w]
  }

  lemma MapAt(ws: seq<Workspace>, k: nat, f: Workspace -> Workspace)
    requires AllApart(ws) && k < |ws|
    ensures OnlyChanges(ws, MapID(ws, ws[k].id, f), k, f(ws[k]))
  {
    forall i | 0 <= i < |ws| ensures ws[i].id == ws[k].id <==> i == k { SameWorkspace(ws, i, k); }
  }

  lemma IndexOfPlace(w: Workspace, i: nat)
    requires Distinct(w.sessions) && i < |w.sessions|
    ensures IndexOfThread(w.sessions, w.sessions[i].id) == i
  {
    var k := IndexOfThread(w.sessions, w.sessions[i].id);
    assert k <= i;
  }

  lemma PlaceOk(t: Tree, p: Place)
    requires WellFormed(t) && IsPlace(t.workspaces, p)
    ensures Distinct(t.workspaces[p.workspace].sessions) && At(t.workspaces, p).id != ""
    ensures HolderOf(t.workspaces, At(t.workspaces, p).id) == Some(t.workspaces[p.workspace])
  {
    assert WorkspaceOk(t.workspaces[p.workspace]);
    PlaceID(t.workspaces, p);
    HolderAt(t.workspaces, p);
  }

  // ----- activating -----

  /** Activating a thread makes its workspace the active one and it the active thread there, and clears its unread
      mark; nothing else changes. */
  lemma ActivatePoints(t: Tree, p: Place)
    requires WellFormed(t) && IsPlace(t.workspaces, p)
    ensures var ws, thread := t.workspaces, At(t.workspaces, p);
            var t', w := ActivateThread(t, thread.id), ws[p.workspace];
            && t'.activeWorkspaceID == w.id && t'.activeJobThreadID == t.activeJobThreadID
            && OnlyChanges(ws, t'.workspaces, p.workspace,
                           w.(activeSessionID := thread.id,
                              sessions := w.sessions[p.thread := thread.(unreadDone := false)]))
            && ActiveThread(t') == thread.id
  {
    var ws, id := t.workspaces, At(t.workspaces, p).id;
    var w := ws[p.workspace];
    PlaceOk(t, p);
    MapAt(ws, p.workspace, (v: Workspace) => v.(activeSessionID := id, sessions := Seen(v.sessions, id)));
    SeenAt(w.sessions, p.thread);
    ActivateKeeps(t, id);
    ActiveAt(ActivateThread(t, id).workspaces, p.workspace);
  }

  lemma SeenAt(sessions: seq<Thread>, i: nat)
    requires Distinct(sessions) && i < |sessions|
    ensures Seen(sessions, sessions[i].id) == sessions[i := sessions[i].(unreadDone := false)]
  {
  }

  lemma ActivateUnknown(t: Tree, id: string)
    requires id !in AllIDs(t.workspaces)
    ensures ActivateThread(t, id) == t
  {
    forall i | 0 <= i < |t.workspaces| ensures !Holds(t.workspaces[i], id) { HoldsIDs(t.workspaces[i], id); }
  }

  // ----- creating and forking -----

  /** A new thread has the standard draft, and is empty, idle, read and unpinned. */
  predicate IsNew(thread: Thread, id: string, title: string) {
    && thread.id == id && thread.title == title && thread.draft == "summarize current repo state and risks"
    && thread.timeline == []
    && thread.activeJobID == "" && thread.lastJobStatus == Idle && !thread.unreadDone && !thread.pinned
    && thread.model == "" && thread.configFlags == [] && thread.resumeLast
  }

  /** Creating adds one new thread at the end of the active workspace and makes it active there. */
  lemma CreateAdds(t: Tree, a: nat, id: string, title: string)
    requires WellFormed(t) && a < |t.workspaces| && t.workspaces[a].id == t.activeWorkspaceID != ""
    requires Fresh(t, id)
    ensures var ws, t' := t.workspaces, CreateThread(t, id, title);
            && t' == t.(workspaces := t'.workspaces) && ActiveThread(t') == id
            && |t'.workspaces| == |ws| && |t'.workspaces[a].sessions| == |ws[a].sessions| + 1
            && var added := t'.workspaces[a].sessions[|ws[a].sessions|];
               && IsNew(added, id, title)
               && OnlyChanges(ws, t'.workspaces, a,
                              ws[a].(sessions := ws[a].sessions + [added], activeSessionID := id))
  {
    MapAt(t.workspaces, a, (w: Workspace) => Append(w, NewSession(id, title)));
    CreateKeeps(t, id, title);
    ActiveAt(CreateThread(t, id, title).workspaces, a);
  }

  lemma CreateNowhere(t: Tree, id: string, title: string)
    requires t.activeWorkspaceID == ""
    ensures CreateThread(t, id, title) == t
  {
  }

  /** A fork carries the source's conversation and settings, and none of its job state. */
  predicate IsFork(fork: Thread, source: Thread, id: string, title: string) {
    && fork.id == id && fork.title == title && fork.draft == source.draft && fork.timeline == source.timeline
    && fork.model == source.model && fork.configFlags == source.configFlags && fork.resumeLast == source.resumeLast
    && fork.activeJobID == "" && fork.lastJobStatus == Idle && !fork.unreadDone && !fork.pinned
  }

  /** Forking adds a fork at the end of the source's workspace, and makes both active; the source stays. */
  lemma ForkAdds(t: Tree, p: Place, threadID: string, id: string, title: string)
    requires WellFormed(t) && IsPlace(t.workspaces, p) && JsTrim(threadID) == At(t.workspaces, p).id
    requires Fresh(t, id)
    ensures var ws, t' := t.workspaces, ForkThread(t, threadID, id, title);
            var w := ws[p.workspace];
            && t' == t.(workspaces := t'.workspaces, activeWorkspaceID := w.id) && ActiveThread(t') == id
            && |t'.workspaces| == |ws| && |t'.workspaces[p.workspace].sessions| == |w.sessions| + 1
            && var fork := t'.workspaces[p.workspace].sessions[|w.sessions|];
               && IsFork(fork, At(ws, p), id, title)
               && OnlyChanges(ws, t'.workspaces, p.workspace,
                              w.(sessions := w.sessions + [fork], activeSessionID := id))
  {
    var ws, w := t.workspaces, t.workspaces[p.workspace];
    PlaceOk(t, p);
    IndexOfPlace(w, p.thread);
    MapAt(ws, p.workspace, (v: Workspace) => Append(v, ForkOf(At(ws, p), id, title)));
    ForkKeeps(t, threadID, id, title);
    ActiveAt(ForkThread(t, threadID, id, title).workspaces, p.workspace);
  }

  lemma ForkUnknown(t: Tree, threadID: string, id: string, title: string)
    requires JsTrim(threadID) == "" || JsTrim(threadID) !in AllIDs(t.workspaces)
    ensures ForkThread(t, threadID, id, title) == t
  {
    forall i | 0 <= i < |t.workspaces| ensures !Holds(t.workspaces[i], JsTrim(threadID)) || JsTrim(threadID) == "" {
      HoldsIDs(t.workspaces[i], JsTrim(threadID));
    }
  }

  // ----- removing -----

  /** The workspace without that thread; an active one hands over to the next, or else to the previous. */
  function Without(w: Workspace, i: nat): Workspace
    requires i < |w.sessions|
  {
    w.(sessions := Drop(w.sessions, i),
       activeSessionID := if w.activeSessionID != w.sessions[i].id then w.activeSessionID
                          else if i + 1 < |w.sessions| then w.sessions[i + 1].id
                          else if i > 0 then w.sessions[i - 1].id else "")
  }

  lemma RemoveFromPlace(w: Workspace, i: nat)
    requires WorkspaceOk(w) && i < |w.sessions|
    ensures RemoveFrom(w, w.sessions[i].id) == Without(w, i)
  {
    IndexOfPlace(w, i);
    ExceptAt(w.sessions, i);
  }

  lemma RemoveFromOthers(ws: seq<Workspace>, p: Place)
    requires AllOk(ws) && AllApart(ws) && IsPlace(ws, p)
    ensures OnlyChanges(ws, RemoveFromAll(ws, At(ws, p).id), p.workspace, Without(ws[p.workspace], p.thread))
  {
    var id := At(ws, p).id;
    RemoveFromPlace(ws[p.workspace], p.thread);
    forall i | 0 <= i < |ws| && i != p.workspace ensures RemoveFrom(ws[i], id) == ws[i] {
      OnlyThere(ws, p, i);
      HoldsIDs(ws[i], id);
    }
  }

  lemma RemoveActive(t: Tree, id: string)
    requires WellFormed(t) && id != "" && HolderOf(t.workspaces, id).Some?
    requires JsTrim(id) == id
    ensures var t' := RemoveThread(t, id);
            && t'.workspaces == RemoveFromAll(t.workspaces, id) && t'.activeWorkspaceID == t.activeWorkspaceID
            && t'.activeJobThreadID == if t.activeJobThreadID == id then ActiveThread(t') else t.activeJobThreadID
  {
    RemoveFromEach(t.workspaces, id);
    FoundIsActive(RemoveFromAll(t.workspaces, id), t.activeWorkspaceID);
  }

  /** Removing takes exactly that thread out of its workspace; a running job of the thread moves on to the active
      thread. */
  lemma RemoveTakesOut(t: Tree, p: Place, threadID: string)
    requires WellFormed(t) && IsPlace(t.workspaces, p) && JsTrim(threadID) == At(t.workspaces, p).id
    ensures var ws, t' := t.workspaces, RemoveThread(t, threadID);
            && t'.activeWorkspaceID == t.activeWorkspaceID
            && OnlyChanges(ws, t'.workspaces, p.workspace, Without(ws[p.workspace], p.thread))
            && t'.activeJobThreadID ==
               if t.activeJobThreadID == At(ws, p).id then ActiveThread(t') else t.activeJobThreadID
  {
    var id := JsTrim(threadID);
    PlaceOk(t, p);
    RemoveFromOthers(t.workspaces, p);
    TrimmedTwice(threadID);
    RemoveActive(t, id);
    assert RemoveThread(t, threadID) == RemoveThread(t, id);
  }

  lemma TrimmedTwice(s: string)
    ensures JsTrim(JsTrim(s)) == JsTrim(s)
  {
  }

  lemma {:induction false} FoundIsActive(ws: seq<Workspace>, id: string)
    ensures ActiveIn(ws, id) == match FindWorkspace(ws, id) case None => "" case Some(w) => w.activeSessionID
  {
    if ws != [] { FoundIsActive(ws[1..], id); }
  }

  lemma RemoveUnknown(t: Tree, threadID: string)
    requires JsTrim(threadID) == "" || JsTrim(threadID) !in AllIDs(t.workspaces)
    ensures RemoveThread(t, threadID) == t
  {
    forall i | 0 <= i < |t.workspaces| ensures !Holds(t.workspaces[i], JsTrim(threadID)) || JsTrim(threadID) == "" {
      HoldsIDs(t.workspaces[i], JsTrim(threadID));
    }
  }

  // ----- merging -----

  /** `kept` is the first of the two that is not blank. */
  predicate FirstGiven(kept: string, first: string, second: string) {
    kept in {first, second} && (kept == "" ==> first == "" && second == "") && (first != "" ==> kept == first)
  }

  /** A merged thread is the target, with the source's settings where the source has any, the target's timeline unless
      that is empty, the first given of the new title, the target's and the source's, and the marks of both. */
  lemma MergeTakesBoth(source: Thread, target: Thread, title: string)
    ensures var m := Merge(source, target, title);
            && m.id == target.id
            && (title != "" ==> m.title == title) && (title == "" ==> FirstGiven(m.title, target.title, source.title))
            && FirstGiven(m.draft, source.draft, target.draft) && FirstGiven(m.model, source.model, target.model)
            && FirstGiven(m.activeJobID, source.activeJobID, target.activeJobID)
            && m.timeline == (if target.timeline != [] then target.timeline else source.timeline)
            && m.configFlags == (if source.configFlags != [] then source.configFlags else target.configFlags)
            && m.resumeLast == source.resumeLast
            && (source.lastJobStatus != Idle ==> m.lastJobStatus == source.lastJobStatus)
            && (source.lastJobStatus == Idle ==> m.lastJobStatus == target.lastJobStatus)
            && (m.unreadDone <==> source.unreadDone || target.unreadDone)
            && (m.pinned <==> source.pinned || target.pinned)
  {
  }

  /** A renamed thread is the source under the new id, with the new title if there is one. */
  lemma RenameKeepsRest(source: Thread, id: string, title: string)
    ensures var r := Rename(source, id, title);
            && r.id == id && r == source.(id := r.id, title := r.title)
            && (title != "" ==> r.title == title) && (title == "" ==> r.title == source.title)
  {
  }
}
