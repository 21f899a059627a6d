/** The client's tree of workspaces and threads: creating, forking, removing, activating, binding a local
    thread to its remote id, and rebuilding the tree from a list of projects. */
module ThreadTree {
  import opened Wrappers
  import opened Text
  import Timeline

  datatype Status = Idle | Running | Succeeded | Failed | Canceled

  datatype Thread = Thread(
    id: string,
    title: string,
    draft: string,
    timeline: seq<Timeline.Entry>,
    model: string,
    configFlags: seq<string>,
    resumeLast: bool,
    activeJobID: string,
    lastJobStatus: Status,
    unreadDone: bool,
    pinned: bool)

  datatype Workspace = Workspace(
    id: string,
    hostID: string,
    path: string,
    sessions: seq<Thread>,
    activeSessionID: string)

  datatype Tree = Tree(workspaces: seq<Workspace>, activeWorkspaceID: string, activeJobThreadID: string)

  // ----- looking things up -----

  function IDs(sessions: seq<Thread>): set<string> {
    set i | 0 <= i < |sessions| :: sessions[i].id
  }

  /** Index of the first thread with this id, or the number of threads. */
  function IndexOfThread(sessions: seq<Thread>, id: string): (i: nat)
    ensures i <= |sessions|
    ensures i < |sessions| ==> sessions[i].id == id
    ensures forall k | 0 <= k < i :: sessions[k].id != id
  {
    if sessions == [] || sessions[0].id == id then 0 else 1 + IndexOfThread(sessions[1..], id)
  }

  predicate Holds(w: Workspace, id: string) {
    IndexOfThread(w.sessions, id) < |w.sessions|
  }

  lemma HoldsIDs(w: Workspace, id: string)
    ensures Holds(w, id) <==> id in IDs(w.sessions)
  {
  }

  /** The first workspace that holds the thread. */
  function HolderOf(ws: seq<Workspace>, id: string): (r: Option<Workspace>)
    ensures r.None? <==> forall i | 0 <= i < |ws| :: !Holds(ws[i], id)
    ensures r.Some? ==> r.value in ws && Holds(r.value, id)
  {
    if ws == [] then None
    else if Holds(ws[0], id) then Some(ws[0])
    else
      assert forall i | 0 < i < |ws| :: ws[i] == ws[1..][i - 1];
      HolderOf(ws[1..], id)
  }

  // ----- well-formed trees -----

  ghost predicate Distinct(sessions: seq<Thread>) {
    forall i, j | 0 <= i < j < |sessions| :: sessions[i].id != sessions[j].id
  }

  ghost predicate WorkspaceOk(w: Workspace) {
    && Distinct(w.sessions)
    && "" !in IDs(w.sessions)
    && (if w.sessions == [] then w.activeSessionID == "" else w.activeSessionID in IDs(w.sessions))
  }

  /** No thread is in two workspaces, and no two workspaces share an id. */
  ghost predicate Apart(v: Workspace, w: Workspace) {
    v.id != w.id && IDs(v.sessions) !! IDs(w.sessions)
  }

  ghost predicate AllApart(ws: seq<Workspace>) {
    forall i, j | 0 <= i < j < |ws| :: Apart(ws[i], ws[j])
  }

  ghost predicate AllOk(ws: seq<Workspace>) {
    forall i | 0 <= i < |ws| :: WorkspaceOk(ws[i])
  }

  predicate HasWorkspace(ws: seq<Workspace>, id: string) {
    exists i :: 0 <= i < |ws| && ws[i].id == id
  }

  ghost predicate WellFormed(t: Tree) {
    AllOk(t.workspaces) && AllApart(t.workspaces) && HasWorkspace(t.workspaces, t.activeWorkspaceID)
  }

  function AllIDs(ws: seq<Workspace>): set<string> {
    set i, id | 0 <= i < |ws| && id in IDs(ws[i].sessions) :: id
  }

  // ----- create, fork, activate, remove -----

  function NewSession(id: string, title: string): Thread {
    Thread(id, title, "summarize current repo state and risks", [], "", [], true, "", Idle, false, false)
  }

  function ForkOf(source: Thread, id: string, title: string): Thread {
    source.(id := id, title := title, activeJobID := "", lastJobStatus := Idle, unreadDone := false, pinned := false)
  }

  function Append(w: Workspace, thread: Thread): Workspace {
    w.(sessions := w.sessions + [thread], activeSessionID := thread.id)
  }

  function MapID(ws: seq<Workspace>, id: string, f: Workspace -> Workspace): seq<Workspace> {
    seq(|ws|, i requires 0 <= i < |ws| => if ws[i].id == id then f(ws[i]) else ws[i])
  }

  function CreateThread(t: Tree, id: string, title: string): Tree {
    if t.activeWorkspaceID == "" then t
    else t.(workspaces := MapID(t.workspaces, t.activeWorkspaceID, (w: Workspace) => Append(w, NewSession(id, title))))
  }

  function ForkThread(t: Tree, threadID: string, id: string, title: string): Tree {
    var sourceID := JsTrim(threadID);
    if sourceID == "" then t
    else
      match HolderOf(t.workspaces, sourceID)
      case None => t
      case Some(w) =>
        var source := w.sessions[IndexOfThread(w.sessions, sourceID)];
        t.(workspaces := MapID(t.workspaces, w.id, (v: Workspace) => Append(v, ForkOf(source, id, title))),
           activeWorkspaceID := w.id)
  }

  function Seen(sessions: seq<Thread>, id: string): (out: seq<Thread>)
    ensures |out| == |sessions|
    ensures forall i | 0 <= i < |sessions| :: out[i].id == sessions[i].id
  {
    seq(|sessions|, i requires 0 <= i < |sessions| =>
      if sessions[i].id == id then sessions[i].(unreadDone := false) else sessions[i])
  }

  function ActivateThread(t: Tree, threadID: string): Tree {
    match HolderOf(t.workspaces, threadID)
    case None => t
    case Some(w) =>
      t.(workspaces := MapID(t.workspaces, w.id,
                             (v: Workspace) => v.(activeSessionID := threadID, sessions := Seen(v.sessions, threadID))),
         activeWorkspaceID := w.id)
  }

  function Except(sessions: seq<Thread>, id: string): (out: seq<Thread>)
    ensures |out| <= |sessions|
  {
    if sessions == [] then []
    else if sessions[0].id != id then [sessions[0]] + Except(sessions[1..], id)
    else Except(sessions[1..], id)
  }

  function RemoveFrom(w: Workspace, id: string): Workspace {
    var index, rest := IndexOfThread(w.sessions, id), Except(w.sessions, id);
    if index == |w.sessions| then w
    else
      var active := if w.activeSessionID != id then w.activeSessionID
                    else if rest == [] then ""
                    else rest[if index < |rest| - 1 then index else |rest| - 1].id;
      w.(sessions := rest, activeSessionID := active)
  }

  function FindWorkspace(ws: seq<Workspace>, id: string): (r: Option<Workspace>)
    ensures r.Some? <==> HasWorkspace(ws, id)
    ensures r.Some? ==> r.value in ws && r.value.id == id
  {
    if ws == [] then None
    else if ws[0].id == id then Some(ws[0])
    else
      assert forall i | 0 < i < |ws| :: ws[i] == ws[1..][i - 1];
      FindWorkspace(ws[1..], id)
  }

  function RemoveFromAll(ws: seq<Workspace>, id: string): (next: seq<Workspace>)
    ensures |next| == |ws|
  {
    seq(|ws|, i requires 0 <= i < |ws| => RemoveFrom(ws[i], id))
  }

  function RemoveThread(t: Tree, threadID: string): Tree {
    var id := JsTrim(threadID);
    if id == "" || HolderOf(t.workspaces, id).None? then t
    else
      var next := RemoveFromAll(t.workspaces, id);
      var active := if HasWorkspace(next, t.activeWorkspaceID) then t.activeWorkspaceID
                    else if next == [] then "" else next[0].id;
      var fallback := match FindWorkspace(next, active) case None => "" case Some(w) => w.activeSessionID;
      Tree(next, active, if t.activeJobThreadID == id then fallback else t.activeJobThreadID)
  }

  // ----- what these keep -----

  lemma AppendIsOk(w: Workspace, thread: Thread)
    requires WorkspaceOk(w) && thread.id != "" && thread.id !in IDs(w.sessions)
    ensures WorkspaceOk(Append(w, thread)) && IDs(Append(w, thread).sessions) == IDs(w.sessions) + {thread.id}
  {
    var more := w.sessions + [thread];
    forall id | id in IDs(w.sessions) + {thread.id} ensures id in IDs(more) {
      if id == thread.id { assert more[|w.sessions|].id == id; }
      else { var i :| 0 <= i < |w.sessions| && w.sessions[i].id == id; assert more[i].id == id; }
    }
  }

  /** Changing one workspace so that it gains at most threads nobody else has keeps the tree well formed. */
  lemma MapKeeps(ws: seq<Workspace>, id: string, f: Workspace -> Workspace, gained: set<string>)
    requires AllOk(ws) && AllApart(ws)
    requires forall w | w in ws && w.id == id ::
               f(w).id == w.id && WorkspaceOk(f(w)) && IDs(f(w).sessions) <= IDs(w.sessions) + gained
    requires gained !! AllIDs(ws)
    ensures AllOk(MapID(ws, id, f)) && AllApart(MapID(ws, id, f))
    ensures forall k: string | HasWorkspace(ws, k) :: HasWorkspace(MapID(ws, id, f), k)
  {
    var out := MapID(ws, id, f);
    forall i, j | 0 <= i < j < |ws| ensures Apart(out[i], out[j]) {
      assert Apart(ws[i], ws[j]);
      assert ws[i] in ws && ws[j] in ws;
      assert IDs(ws[i].sessions) <= AllIDs(ws) && IDs(ws[j].sessions) <= AllIDs(ws);
    }
    forall i | 0 <= i < |ws| ensures WorkspaceOk(out[i]) { assert ws[i] in ws; }
    forall k: string | HasWorkspace(ws, k) ensures HasWorkspace(out, k) {
      var i :| 0 <= i < |ws| && ws[i].id == k;
      assert ws[i] in ws && out[i].id == k;
    }
  }

  /** Which thread ids there are after changing the threads of one workspace. */
  predicate Fresh(t: Tree, id: string) {
    id != "" && id !in AllIDs(t.workspaces)
  }

  lemma MemberIDs(ws: seq<Workspace>, w: Workspace)
    requires w in ws
    ensures IDs(w.sessions) <= AllIDs(ws)
  {
  }

  lemma CreateKeeps(t: Tree, id: string, title: string)
    requires WellFormed(t) && Fresh(t, id)
    ensures WellFormed(CreateThread(t, id, title))
  {
    var f := (w: Workspace) => Append(w, NewSession(id, title));
    forall w | w in t.workspaces
      ensures f(w).id == w.id && WorkspaceOk(f(w)) && IDs(f(w).sessions) <= IDs(w.sessions) + {id}
    {
      MemberIDs(t.workspaces, w);
      assert WorkspaceOk(w);
      AppendIsOk(w, NewSession(id, title));
    }
    MapKeeps(t.workspaces, t.activeWorkspaceID, f, {id});
  }

  lemma HolderIsThere(ws: seq<Workspace>, id: string)
    requires HolderOf(ws, id).Some?
    ensures HasWorkspace(ws, HolderOf(ws, id).value.id)
  {
  }

  lemma ForkKeeps(t: Tree, threadID: string, id: string, title: string)
    requires WellFormed(t) && Fresh(t, id)
    ensures WellFormed(ForkThread(t, threadID, id, title))
  {
    var sourceID := JsTrim(threadID);
    if sourceID != "" && HolderOf(t.workspaces, sourceID).Some? {
      var h := HolderOf(t.workspaces, sourceID).value;
      var forked := ForkOf(h.sessions[IndexOfThread(h.sessions, sourceID)], id, title);
      var f := (w: Workspace) => Append(w, forked);
      forall w | w in t.workspaces
        ensures f(w).id == w.id && WorkspaceOk(f(w)) && IDs(f(w).sessions) <= IDs(w.sessions) + {id}
      {
        MemberIDs(t.workspaces, w);
        assert WorkspaceOk(w);
        AppendIsOk(w, forked);
      }
      MapKeeps(t.workspaces, h.id, f, {id});
      HolderIsThere(t.workspaces, sourceID);
    }
  }

  lemma SeenIDs(sessions: seq<Thread>, id: string)
    ensures IDs(Seen(sessions, id)) == IDs(sessions)
  {
  }

  lemma SameID(ws: seq<Workspace>, v: Workspace, w: Workspace)
    requires AllApart(ws) && v in ws && w in ws && v.id == w.id
    ensures v == w
  {
  }

  lemma ActivateKeeps(t: Tree, threadID: string)
    requires WellFormed(t)
    ensures WellFormed(ActivateThread(t, threadID))
  {
    var ws := t.workspaces;
    if HolderOf(ws, threadID).Some? {
      var h := HolderOf(ws, threadID).value;
      var f := (v: Workspace) => v.(activeSessionID := threadID, sessions := Seen(v.sessions, threadID));
      forall w | w in ws && w.id == h.id
        ensures f(w).id == w.id && WorkspaceOk(f(w)) && IDs(f(w).sessions) <= IDs(w.sessions) + {}
      {
        SameID(ws, w, h);
        assert WorkspaceOk(w);
        SeenIDs(w.sessions, threadID);
        HoldsIDs(h, threadID);
      }
      MapKeeps(ws, h.id, f, {});
      HolderIsThere(ws, threadID);
    }
  }

  function Drop(sessions: seq<Thread>, i: nat): seq<Thread>
    requires i < |sessions|
  {
    sessions[..i] + sessions[i + 1..]
  }

  lemma DropIDs(sessions: seq<Thread>, i: nat)
    requires i < |sessions| && Distinct(sessions)
    ensures Distinct(Drop(sessions, i)) && IDs(Drop(sessions, i)) == IDs(sessions) - {sessions[i].id}
  {
    var rest := Drop(sessions, i);
    forall id | id in IDs(sessions) - {sessions[i].id} ensures id in IDs(rest) {
      var k :| 0 <= k < |sessions| && sessions[k].id == id;
      assert rest[if k < i then k else k - 1] == sessions[k];
    }
    forall id | id in IDs(rest) ensures id in IDs(sessions) - {sessions[i].id} {
      var k :| 0 <= k < |rest| && rest[k].id == id;
      assert rest[k] == sessions[if k < i then k else k + 1];
    }
  }

  lemma {:induction false} ExceptNone(sessions: seq<Thread>, id: string)
    requires forall i | 0 <= i < |sessions| :: sessions[i].id != id
    ensures Except(sessions, id) == sessions
  {
    if sessions != [] {
      ExceptNone(sessions[1..], id);
    }
  }

  lemma {:induction false} ExceptAt(sessions: seq<Thread>, i: nat)
    requires i < |sessions| && Distinct(sessions)
    ensures Except(sessions, sessions[i].id) == Drop(sessions, i)
    decreases i
  {
    if i == 0 {
      ExceptNone(sessions[1..], sessions[0].id);
    } else {
      ExceptAt(sessions[1..], i - 1);
      assert [sessions[0]] + Drop(sessions[1..], i - 1) == Drop(sessions, i);
    }
  }

  /** A removed active thread is replaced by the one after it, or else by the one before it. */
  lemma RemoveFromIsOk(w: Workspace, id: string)
    requires WorkspaceOk(w) && id != ""
    ensures var w', i := RemoveFrom(w, id), IndexOfThread(w.sessions, id);
            && WorkspaceOk(w') && w'.id == w.id && IDs(w'.sessions) == IDs(w.sessions) - {id}
            && (w.activeSessionID == id && i < |w.sessions| - 1 ==> w'.activeSessionID == w.sessions[i + 1].id)
            && (w.activeSessionID == id && i == |w.sessions| - 1 > 0 ==> w'.activeSessionID == w.sessions[i - 1].id)
            && (w.activeSessionID != id ==> w'.activeSessionID == w.activeSessionID)
  {
    HoldsIDs(w, id);
    if Holds(w, id) {
      ExceptAt(w.sessions, IndexOfThread(w.sessions, id));
      DropIDs(w.sessions, IndexOfThread(w.sessions, id));
    }
  }

  /** Changing workspaces one by one so that at most one of them gains threads that were nowhere keeps
      them apart. */
  lemma EachKeeps(ws: seq<Workspace>, out: seq<Workspace>, g: int, gained: set<string>)
    requires AllApart(ws) && |out| == |ws| && gained !! AllIDs(ws)
    requires forall i | 0 <= i < |ws| :: out[i].id == ws[i].id
    requires forall i | 0 <= i < |ws| :: IDs(out[i].sessions) <= IDs(ws[i].sessions) + if i == g then gained else {}
    ensures AllApart(out)
    ensures forall k: string | HasWorkspace(ws, k) :: HasWorkspace(out, k)
  {
  }

  lemma RemoveFromEach(ws: seq<Workspace>, id: string)
    requires AllOk(ws) && AllApart(ws) && id != ""
    ensures var next := RemoveFromAll(ws, id);
            && AllOk(next) && AllApart(next)
            && (forall k: string | HasWorkspace(ws, k) :: HasWorkspace(next, k))
            && AllIDs(next) == AllIDs(ws) - {id}
  {
    var next := RemoveFromAll(ws, id);
    forall i | 0 <= i < |ws|
      ensures WorkspaceOk(next[i]) && next[i].id == ws[i].id && IDs(next[i].sessions) == IDs(ws[i].sessions) - {id}
    {
      assert WorkspaceOk(ws[i]);
      RemoveFromIsOk(ws[i], id);
    }
    EachKeeps(ws, next, -1, {});
    EachIDs(ws, next, {id}, -1, {});
  }

  lemma NoHolder(ws: seq<Workspace>, id: string)
    requires HolderOf(ws, id).None?
    ensures id !in AllIDs(ws)
  {
  }

  lemma BlankIsNoID(ws: seq<Workspace>)
    requires AllOk(ws)
    ensures "" !in AllIDs(ws)
  {
  }

  /** Removing a thread removes exactly its id. */
  lemma RemoveKeeps(t: Tree, threadID: string)
    requires WellFormed(t)
    ensures WellFormed(RemoveThread(t, threadID))
    ensures RemoveThread(t, threadID).activeWorkspaceID == t.activeWorkspaceID
    ensures AllIDs(RemoveThread(t, threadID).workspaces) == AllIDs(t.workspaces) - {JsTrim(threadID)}
  {
    var ws, id := t.workspaces, JsTrim(threadID);
    if id == "" {
      BlankIsNoID(ws);
    } else if HolderOf(ws, id).None? {
      NoHolder(ws, id);
    } else {
      RemoveFromEach(ws, id);
    }
  }

  lemma EachIDs(ws: seq<Workspace>, out: seq<Workspace>, lost: set<string>, g: int, gained: set<string>)
    requires |out| == |ws| && (gained == {} || 0 <= g < |ws|)
    requires forall i | 0 <= i < |ws| ::
               IDs(out[i].sessions) == (IDs(ws[i].sessions) - lost) + if i == g then gained else {}
    ensures AllIDs(out) == (AllIDs(ws) - lost) + gained
  {
    forall id | id in AllIDs(out) ensures id in (AllIDs(ws) - lost) + gained {
      var i :| 0 <= i < |out| && id in IDs(out[i].sessions);
      assert id !in gained ==> id in IDs(ws[i].sessions);
    }
    forall id | id in (AllIDs(ws) - lost) + gained ensures id in AllIDs(out) {
      if id in gained {
        assert id in IDs(out[g].sessions);
      } else {
        var i :| 0 <= i < |ws| && id in IDs(ws[i].sessions);
        assert id in IDs(out[i].sessions);
      }
    }
  }

  // ----- binding a local thread to its remote id -----

  datatype Place = Place(workspace: nat, thread: nat)

  predicate IsPlace(ws: seq<Workspace>, p: Place) {
    p.workspace < |ws| && p.thread < |ws[p.workspace].sessions|
  }

  function At(ws: seq<Workspace>, p: Place): Thread
    requires IsPlace(ws, p)
  {
    ws[p.workspace].sessions[p.thread]
  }

  /** The last place of a thread id, in the order of workspaces and threads. */
  ghost predicate IsLastPlace(ws: seq<Workspace>, id: string, found: Option<Place>) {
    match found
    case None => forall i, k | 0 <= i < |ws| && 0 <= k < |ws[i].sessions| :: ws[i].sessions[k].id != id
    case Some(p) =>
      && IsPlace(ws, p) && At(ws, p).id == id
      && (forall k | p.thread < k < |ws[p.workspace].sessions| :: ws[p.workspace].sessions[k].id != id)
      && forall i, k | p.workspace < i < |ws| && 0 <= k < |ws[i].sessions| :: ws[i].sessions[k].id != id
  }

  function Either(a: string, b: string): string {
    if a != "" then a else b
  }

  /** The target thread keeps its id and its timeline unless that is empty; the source's settings win. */
  function Merge(source: Thread, target: Thread, title: string): Thread {
    target.(title := Either(title, Either(target.title, source.title)),
            draft := Either(source.draft, target.draft),
            timeline := if target.timeline != [] then target.timeline else source.timeline,
            model := Either(source.model, target.model),
            configFlags := if source.configFlags != [] then source.configFlags else target.configFlags,
            resumeLast := source.resumeLast,
            activeJobID := Either(source.activeJobID, target.activeJobID),
            lastJobStatus := if source.lastJobStatus != Idle then source.lastJobStatus else target.lastJobStatus,
            unreadDone := source.unreadDone || target.unreadDone,
            pinned := source.pinned || target.pinned)
  }

  function Rename(source: Thread, id: string, title: string): Thread {
    source.(id := id, title := Either(title, source.title))
  }

  /** Keeps the first thread of each id that was not seen before. */
  function Dedup(sessions: seq<Thread>, seen: set<string>): seq<Thread>
    decreases |sessions|
  {
    if sessions == [] then []
    else if sessions[0].id in seen then Dedup(sessions[1..], seen)
    else [sessions[0]] + Dedup(sessions[1..], seen + {sessions[0].id})
  }

  function WithoutSource(w: Workspace, thread: nat, sourceID: string): Workspace
    requires thread < |w.sessions|
  {
    var rest := Drop(w.sessions, thread);
    w.(sessions := rest,
       activeSessionID :=
         if w.activeSessionID != sourceID then w.activeSessionID else if rest == [] then "" else rest[0].id)
  }

  function Settle(w: Workspace, sourceID: string, targetID: string): Workspace {
    w.(activeSessionID := if w.activeSessionID == sourceID then targetID else w.activeSessionID,
       sessions := Dedup(w.sessions, {}))
  }

  function Put(w: Workspace, thread: nat, what: Thread): Workspace
    requires thread < |w.sessions|
  {
    w.(sessions := w.sessions[thread := what])
  }

  /** Where the merged or renamed thread goes. */
  function Landing(source: Place, target: Option<Place>): Place {
    if target.Some? then target.value else source
  }

  function Landed(ws: seq<Workspace>, source: Place, target: Option<Place>, targetID: string, title: string): Thread
    requires IsPlace(ws, source) && (target.Some? ==> IsPlace(ws, target.value))
  {
    if target.Some? then Merge(At(ws, source), At(ws, target.value), title) else Rename(At(ws, source), targetID, title)
  }

  /** Workspace number `k` after the bind. */
  function BoundWorkspace(ws: seq<Workspace>, k: nat, source: Place, target: Option<Place>,
                          sourceID: string, targetID: string, title: string): Workspace
    requires k < |ws| && IsPlace(ws, source) && (target.Some? ==> IsPlace(ws, target.value))
  {
    var at := Landing(source, target);
    var put := if at.workspace == k then Put(ws[k], at.thread, Landed(ws, source, target, targetID, title)) else ws[k];
    var kept := if target.Some? && target.value != source && source.workspace == k
                then WithoutSource(put, source.thread, sourceID) else put;
    Settle(kept, sourceID, targetID)
  }

  function BoundAll(ws: seq<Workspace>, source: Place, target: Option<Place>,
                    sourceID: string, targetID: string, title: string): (out: seq<Workspace>)
    requires IsPlace(ws, source) && (target.Some? ==> IsPlace(ws, target.value))
    ensures |out| == |ws|
  {
    seq(|ws|, k requires 0 <= k < |ws| => BoundWorkspace(ws, k, source, target, sourceID, targetID, title))
  }

  // ----- what binding keeps -----

  lemma {:induction false} DedupKeepsDistinct(sessions: seq<Thread>, seen: set<string>)
    requires Distinct(sessions) && IDs(sessions) !! seen
    ensures Dedup(sessions, seen) == sessions
    decreases |sessions|
  {
    if sessions != [] {
      assert sessions[0].id in IDs(sessions);
      var rest := sessions[1..];
      forall id | id in IDs(rest) ensures id !in seen + {sessions[0].id} {
        var i :| 0 <= i < |rest| && rest[i].id == id;
        assert sessions[i + 1].id == id && id in IDs(sessions);
      }
      DedupKeepsDistinct(rest, seen + {sessions[0].id});
      assert [sessions[0]] + rest == sessions;
    }
  }

  lemma PutIDs(sessions: seq<Thread>, i: nat, what: Thread)
    requires i < |sessions| && Distinct(sessions) && (what.id == sessions[i].id || what.id !in IDs(sessions))
    ensures Distinct(sessions[i := what])
    ensures IDs(sessions[i := what]) == IDs(sessions) - {sessions[i].id} + {what.id}
  {
    var out := sessions[i := what];
    forall id | id in IDs(sessions) - {sessions[i].id} + {what.id} ensures id in IDs(out) {
      if id == what.id { assert out[i].id == id; }
      else { var k :| 0 <= k < |sessions| && sessions[k].id == id; assert out[k].id == id; }
    }
    forall id | id in IDs(out) ensures id in IDs(sessions) - {sessions[i].id} + {what.id} {
      var k :| 0 <= k < |out| && out[k].id == id;
      assert k != i ==> sessions[k].id == id && sessions[i].id != id;
    }
    forall a, b | 0 <= a < b < |out| ensures out[a].id != out[b].id {
      assert sessions[a].id in IDs(sessions) && sessions[b].id in IDs(sessions);
    }
  }

  lemma SettleIsOk(w: Workspace, sourceID: string, targetID: string)
    requires WorkspaceOk(w.(activeSessionID := if w.activeSessionID == sourceID then targetID else w.activeSessionID))
    ensures WorkspaceOk(Settle(w, sourceID, targetID)) && Settle(w, sourceID, targetID).sessions == w.sessions
  {
    DedupKeepsDistinct(w.sessions, {});
  }

  /** The tree and the places a bind starts from: two different ids, the first of which is a thread's. */
  ghost predicate Bindable(ws: seq<Workspace>, source: Place, target: Option<Place>, sourceID: string,
        targetID: string) {
    && AllOk(ws) && AllApart(ws)
    && sourceID != targetID && sourceID != "" && targetID != ""
    && IsLastPlace(ws, sourceID, Some(source)) && IsLastPlace(ws, targetID, target)
  }

  lemma PlaceID(ws: seq<Workspace>, p: Place)
    requires IsPlace(ws, p)
    ensures At(ws, p).id in IDs(ws[p.workspace].sessions)
  {
  }

  /** A thread's id is in no other workspace. */
  lemma OnlyThere(ws: seq<Workspace>, p: Place, k: nat)
    requires AllApart(ws) && IsPlace(ws, p) && k < |ws| && k != p.workspace
    ensures At(ws, p).id !in IDs(ws[k].sessions)
  {
  }

  /** The target's workspace takes the merged thread, unless the source's does so too. */
  lemma BoundMerge(ws: seq<Workspace>, k: nat, source: Place, target: Place, sourceID: string, targetID: string,
        title: string)
    requires Bindable(ws, source, Some(target), sourceID, targetID) && k == target.workspace
    ensures var put := Put(ws[k], target.thread, Landed(ws, source, Some(target), targetID, title));
            && WorkspaceOk(put) && put.id == ws[k].id && IDs(put.sessions) == IDs(ws[k].sessions)
  {
    assert WorkspaceOk(ws[k]);
    PlaceID(ws, target);
    PutIDs(ws[k].sessions, target.thread, Landed(ws, source, Some(target), targetID, title));
  }

  lemma DropIsOk(w: Workspace, thread: nat, sourceID: string)
    requires WorkspaceOk(w) && thread < |w.sessions| && w.sessions[thread].id == sourceID
    ensures var out := WithoutSource(w, thread, sourceID);
            && WorkspaceOk(out) && out.id == w.id
            && IDs(out.sessions) == IDs(w.sessions) - {sourceID} && out.activeSessionID != sourceID
  {
    DropIDs(w.sessions, thread);
    var rest := Drop(w.sessions, thread);
    if rest != [] { assert rest[0].id in IDs(rest); }
  }

  /** What a bind does to one workspace: the source id goes, the target id stays or comes. */
  ghost predicate BoundOk(w: Workspace, out: Workspace, sourceID: string, gained: set<string>) {
    WorkspaceOk(out) && out.id == w.id && IDs(out.sessions) == (IDs(w.sessions) - {sourceID}) + gained
  }

  lemma BoundElsewhere(ws: seq<Workspace>, k: nat, source: Place, target: Option<Place>, sourceID: string,
        targetID: string, title: string)
    requires Bindable(ws, source, target, sourceID, targetID) && k < |ws| && k != source.workspace
    ensures BoundOk(ws[k], BoundWorkspace(ws, k, source, target, sourceID, targetID, title), sourceID, {})
  {
    assert WorkspaceOk(ws[k]);
    OnlyThere(ws, source, k);
    if target.Some? && target.value.workspace == k {
      BoundMerge(ws, k, source, target.value, sourceID, targetID, title);
      SettleIsOk(Put(ws[k], target.value.thread, Landed(ws, source, target, targetID, title)), sourceID, targetID);
    } else {
      SettleIsOk(ws[k], sourceID, targetID);
    }
  }

  lemma BoundByMerge(ws: seq<Workspace>, source: Place, target: Place, sourceID: string, targetID: string,
        title: string)
    requires Bindable(ws, source, Some(target), sourceID, targetID)
    ensures BoundOk(ws[source.workspace],
                    BoundWorkspace(ws, source.workspace, source, Some(target), sourceID, targetID, title), sourceID, {})
  {
    var k := source.workspace;
    assert WorkspaceOk(ws[k]);
    var put := ws[k];
    if target.workspace == k {
      BoundMerge(ws, k, source, target, sourceID, targetID, title);
      put := Put(ws[k], target.thread, Landed(ws, source, Some(target), targetID, title));
    }
    DropIsOk(put, source.thread, sourceID);
    SettleIsOk(WithoutSource(put, source.thread, sourceID), sourceID, targetID);
  }

  lemma BoundByRename(ws: seq<Workspace>, source: Place, sourceID: string, targetID: string, title: string)
    requires Bindable(ws, source, None, sourceID, targetID)
    ensures BoundOk(ws[source.workspace],
                    BoundWorkspace(ws, source.workspace, source, None, sourceID, targetID, title),
                    sourceID, {targetID})
  {
    var k := source.workspace;
    var w, renamed := ws[k], Rename(At(ws, source), targetID, title);
    assert WorkspaceOk(w);
    PlaceID(ws, source);
    PutIDs(w.sessions, source.thread, renamed);
    SettleIsOk(Put(w, source.thread, renamed), sourceID, targetID);
  }

  lemma BoundEach(ws: seq<Workspace>, k: nat, source: Place, target: Option<Place>, sourceID: string, targetID: string,
        title: string)
    requires Bindable(ws, source, target, sourceID, targetID) && k < |ws|
    ensures BoundOk(ws[k], BoundWorkspace(ws, k, source, target, sourceID, targetID, title), sourceID,
                    if k == source.workspace && target.None? then {targetID} else {})
  {
    if k != source.workspace {
      BoundElsewhere(ws, k, source, target, sourceID, targetID, title);
    } else if target.Some? {
      BoundByMerge(ws, source, target.value, sourceID, targetID, title);
    } else {
      BoundByRename(ws, source, sourceID, targetID, title);
    }
  }

  lemma AllBound(ws: seq<Workspace>, out: seq<Workspace>, sourceID: string, g: nat, gained: set<string>)
    requires AllApart(ws) && |out| == |ws| && g < |ws| && gained !! AllIDs(ws)
    requires forall k | 0 <= k < |ws| :: BoundOk(ws[k], out[k], sourceID, if k == g then gained else {})
    ensures AllOk(out) && AllApart(out) && (forall k: string | HasWorkspace(ws, k) :: HasWorkspace(out, k))
    ensures AllIDs(out) == (AllIDs(ws) - {sourceID}) + gained
  {
    EachKeeps(ws, out, g, gained);
    EachIDs(ws, out, {sourceID}, g, gained);
  }

  lemma TargetIsKnown(ws: seq<Workspace>, target: Option<Place>, targetID: string)
    requires IsLastPlace(ws, targetID, target)
    ensures targetID in AllIDs(ws) <==> target.Some?
  {
    if target.Some? { PlaceID(ws, target.value); }
  }

  /** Binding keeps the tree well formed and turns the ids into (ids - S) + T. */
  lemma BoundAllKeeps(ws: seq<Workspace>, source: Place, target: Option<Place>, sourceID: string, targetID: string,
        title: string)
    requires Bindable(ws, source, target, sourceID, targetID)
    ensures var out := BoundAll(ws, source, target, sourceID, targetID, title);
            && AllOk(out) && AllApart(out)
            && (forall k: string | HasWorkspace(ws, k) :: HasWorkspace(out, k))
            && AllIDs(out) == (AllIDs(ws) - {sourceID}) + {targetID}
  {
    var out, gained := BoundAll(ws, source, target, sourceID, targetID, title), if target.Some? then {} else {targetID};
    forall k | 0 <= k < |ws| ensures BoundOk(ws[k], out[k], sourceID, if k == source.workspace then gained else {}) {
      BoundEach(ws, k, source, target, sourceID, targetID, title);
    }
    TargetIsKnown(ws, target, targetID);
    AllBound(ws, out, sourceID, source.workspace, gained);
  }

  function Threads(sessions: seq<Thread>): set<Thread> {
    set i | 0 <= i < |sessions| :: sessions[i]
  }

  function AllThreads(ws: seq<Workspace>): set<Thread> {
    set i, thread | 0 <= i < |ws| && thread in Threads(ws[i].sessions) :: thread
  }

  lemma PutThreads(sessions: seq<Thread>, i: nat, what: Thread)
    requires i < |sessions| && Distinct(sessions)
    ensures Threads(sessions[i := what]) == Threads(sessions) - {sessions[i]} + {what}
  {
    var out := sessions[i := what];
    forall t | t in Threads(sessions) - {sessions[i]} + {what} ensures t in Threads(out) {
      if t == what { assert out[i] == t; }
      else { var k :| 0 <= k < |sessions| && sessions[k] == t; assert out[k] == t; }
    }
    forall t | t in Threads(out) ensures t in Threads(sessions) - {sessions[i]} + {what} {
      var k :| 0 <= k < |out| && out[k] == t;
      assert k != i ==> sessions[k] == t && sessions[i].id != t.id;
    }
  }

  lemma DropThreads(sessions: seq<Thread>, i: nat)
    requires i < |sessions| && Distinct(sessions)
    ensures Threads(Drop(sessions, i)) == Threads(sessions) - {sessions[i]}
  {
    var out := Drop(sessions, i);
    forall t | t in Threads(sessions) - {sessions[i]} ensures t in Threads(out) {
      var k :| 0 <= k < |sessions| && sessions[k] == t;
      assert out[if k < i then k else k - 1] == t;
    }
    forall t | t in Threads(out) ensures t in Threads(sessions) - {sessions[i]} {
      var k :| 0 <= k < |out| && out[k] == t;
      assert sessions[if k < i then k else k + 1] == t;
    }
  }

  lemma ThreadIDs(sessions: seq<Thread>, t: Thread)
    requires t.id !in IDs(sessions)
    ensures t !in Threads(sessions)
  {
  }

  function Lost(ws: seq<Workspace>, source: Place, target: Option<Place>): set<Thread>
    requires IsPlace(ws, source) && (target.Some? ==> IsPlace(ws, target.value))
  {
    {At(ws, source)} + if target.Some? then {At(ws, target.value)} else {}
  }

  lemma PutThenDrop(sessions: seq<Thread>, i: nat, what: Thread, j: nat)
    requires i < |sessions| && j < |sessions| && i != j && Distinct(sessions) && what.id == sessions[i].id
    ensures Threads(Drop(sessions[i := what], j)) == (Threads(sessions) - {sessions[j], sessions[i]}) + {what}
  {
    PutThreads(sessions, i, what);
    PutIDs(sessions, i, what);
    DropThreads(sessions[i := what], j);
    assert sessions[j].id != what.id;
  }

  /** The threads of one workspace after a bind. */
  ghost predicate ThreadsBound(ws: seq<Workspace>, k: nat, source: Place, target: Option<Place>, sourceID: string,
        targetID: string, title: string)
    requires k < |ws| && IsPlace(ws, source) && (target.Some? ==> IsPlace(ws, target.value))
  {
    Threads(BoundWorkspace(ws, k, source, target, sourceID, targetID, title).sessions) ==
    (Threads(ws[k].sessions) - Lost(ws, source, target))
    + if k == Landing(source, target).workspace then {Landed(ws, source, target, targetID, title)} else {}
  }

  lemma RenameThreads(ws: seq<Workspace>, k: nat, source: Place, sourceID: string, targetID: string, title: string)
    requires Bindable(ws, source, None, sourceID, targetID) && k < |ws|
    ensures ThreadsBound(ws, k, source, None, sourceID, targetID, title)
  {
    BoundSessions(ws, k, source, None, sourceID, targetID, title);
    assert WorkspaceOk(ws[k]);
    if k == source.workspace {
      PutThreads(ws[k].sessions, source.thread, Landed(ws, source, None, targetID, title));
    } else {
      OnlyThere(ws, source, k);
      ThreadIDs(ws[k].sessions, At(ws, source));
    }
  }

  /** The target's workspace when the source is in it too. */
  lemma MergeHere(ws: seq<Workspace>, source: Place, target: Place, sourceID: string, targetID: string,
        title: string)
    requires Bindable(ws, source, Some(target), sourceID, targetID) && target.workspace == source.workspace
    ensures ThreadsBound(ws, target.workspace, source, Some(target), sourceID, targetID, title)
  {
    var k := target.workspace;
    BoundSessions(ws, k, source, Some(target), sourceID, targetID, title);
    assert WorkspaceOk(ws[k]);
    PutThenDrop(ws[k].sessions, target.thread, Landed(ws, source, Some(target), targetID, title), source.thread);
  }

  /** The target's workspace when the source is in another. */
  lemma MergeThere(ws: seq<Workspace>, source: Place, target: Place, sourceID: string, targetID: string,
        title: string)
    requires Bindable(ws, source, Some(target), sourceID, targetID) && target.workspace != source.workspace
    ensures ThreadsBound(ws, target.workspace, source, Some(target), sourceID, targetID, title)
  {
    var k := target.workspace;
    BoundSessions(ws, k, source, Some(target), sourceID, targetID, title);
    assert WorkspaceOk(ws[k]);
    PutThreads(ws[k].sessions, target.thread, Landed(ws, source, Some(target), targetID, title));
    OnlyThere(ws, source, k);
    ThreadIDs(ws[k].sessions, At(ws, source));
  }

  lemma LeaveThreads(ws: seq<Workspace>, k: nat, source: Place, target: Place, sourceID: string, targetID: string,
        title: string)
    requires Bindable(ws, source, Some(target), sourceID, targetID) && k < |ws| && k != target.workspace
    ensures ThreadsBound(ws, k, source, Some(target), sourceID, targetID, title)
  {
    BoundSessions(ws, k, source, Some(target), sourceID, targetID, title);
    assert WorkspaceOk(ws[k]);
    OnlyThere(ws, target, k);
    ThreadIDs(ws[k].sessions, At(ws, target));
    if k == source.workspace {
      DropThreads(ws[k].sessions, source.thread);
    } else {
      OnlyThere(ws, source, k);
      ThreadIDs(ws[k].sessions, At(ws, source));
    }
  }

  /** The sessions of one workspace after a bind, without the pass that drops repeated ids. */
  lemma BoundSessions(ws: seq<Workspace>, k: nat, source: Place, target: Option<Place>, sourceID: string,
        targetID: string, title: string)
    requires Bindable(ws, source, target, sourceID, targetID) && k < |ws|
    ensures var at := Landing(source, target);
            var put := if k != at.workspace then ws[k].sessions
                       else ws[k].sessions[at.thread := Landed(ws, source, target, targetID, title)];
            BoundWorkspace(ws, k, source, target, sourceID, targetID, title).sessions ==
            if target.Some? && k == source.workspace then Drop(put, source.thread) else put
  {
    var at, landed := Landing(source, target), Landed(ws, source, target, targetID, title);
    assert WorkspaceOk(ws[k]);
    if k == at.workspace {
      if target.None? { PlaceID(ws, source); }
      PutIDs(ws[k].sessions, at.thread, landed);
    }
    var put := if k == at.workspace then ws[k].sessions[at.thread := landed] else ws[k].sessions;
    if target.Some? && k == source.workspace {
      DropIDs(put, source.thread);
      DedupKeepsDistinct(Drop(put, source.thread), {});
    } else {
      DedupKeepsDistinct(put, {});
    }
  }

  /** A bind replaces the source thread, and the target thread if there is one, by a single thread with the
      target's id, and leaves every other thread as it was. */
  lemma BoundAllThreads(ws: seq<Workspace>, source: Place, target: Option<Place>, sourceID: string, targetID: string,
        title: string)
    requires Bindable(ws, source, target, sourceID, targetID)
    ensures var out := BoundAll(ws, source, target, sourceID, targetID, title);
            && AllThreads(out) == (AllThreads(ws) - Lost(ws, source, target))
                                  + {Landed(ws, source, target, targetID, title)}
            && Landed(ws, source, target, targetID, title).id == targetID
  {
    var out, at := BoundAll(ws, source, target, sourceID, targetID, title), Landing(source, target);
    var lost, landed := Lost(ws, source, target), Landed(ws, source, target, targetID, title);
    forall k | 0 <= k < |ws|
      ensures Threads(out[k].sessions) == (Threads(ws[k].sessions) - lost) + if k == at.workspace then {landed} else {}
    {
      if target.None? {
        RenameThreads(ws, k, source, sourceID, targetID, title);
      } else if k == target.value.workspace {
        if k == source.workspace {
          MergeHere(ws, source, target.value, sourceID, targetID, title);
        } else {
          MergeThere(ws, source, target.value, sourceID, targetID, title);
        }
      } else {
        LeaveThreads(ws, k, source, target.value, sourceID, targetID, title);
      }
    }
    EachThreads(ws, out, lost, at.workspace, landed);
  }

  /** The first thread id besides the one at `i`, or none. */
  function FirstOther(sessions: seq<Thread>, i: nat): string
    requires i < |sessions|
  {
    if i > 0 then sessions[0].id else if |sessions| > 1 then sessions[1].id else ""
  }

  lemma DropActive(w: Workspace, put: Workspace, thread: nat, sourceID: string)
    requires WorkspaceOk(w) && thread < |w.sessions| && w.sessions[thread].id == sourceID
    requires |put.sessions| == |w.sessions| && put.activeSessionID == w.activeSessionID
    requires forall i | 0 <= i < |w.sessions| :: put.sessions[i].id == w.sessions[i].id
    ensures FirstOther(w.sessions, thread) != sourceID
    ensures WithoutSource(put, thread, sourceID).activeSessionID ==
            if w.activeSessionID != sourceID then w.activeSessionID else FirstOther(w.sessions, thread)
  {
    assert sourceID in IDs(w.sessions);
  }

  /** The active thread of each workspace after a bind, told from before it: an active source thread hands over
      to the target's id when it is renamed, and to the first other thread when it is merged away. */
  lemma BoundActive(ws: seq<Workspace>, k: nat, source: Place, target: Option<Place>, sourceID: string,
        targetID: string, title: string)
    requires Bindable(ws, source, target, sourceID, targetID) && k < |ws|
    ensures BoundAll(ws, source, target, sourceID, targetID, title)[k].activeSessionID ==
            if k != source.workspace || ws[k].activeSessionID != sourceID then ws[k].activeSessionID
            else if target.None? then targetID
            else FirstOther(ws[k].sessions, source.thread)
  {
    assert WorkspaceOk(ws[k]);
    if k != source.workspace {
      OnlyThere(ws, source, k);
    } else if target.Some? {
      var put := if target.value.workspace == k
                 then Put(ws[k], target.value.thread, Landed(ws, source, target, targetID, title)) else ws[k];
      DropActive(ws[k], put, source.thread, sourceID);
    }
  }

  lemma EachThreads(ws: seq<Workspace>, out: seq<Workspace>, lost: set<Thread>, g: nat, gained: Thread)
    requires |out| == |ws| && g < |ws|
    requires forall k | 0 <= k < |ws| ::
               Threads(out[k].sessions) == (Threads(ws[k].sessions) - lost) + if k == g then {gained} else {}
    ensures AllThreads(out) == (AllThreads(ws) - lost) + {gained}
  {
    forall t | t in AllThreads(out) ensures t in (AllThreads(ws) - lost) + {gained} {
      var i :| 0 <= i < |out| && t in Threads(out[i].sessions);
      assert t != gained ==> t in Threads(ws[i].sessions);
    }
    forall t | t in (AllThreads(ws) - lost) + {gained} ensures t in AllThreads(out) {
      if t == gained {
        assert t in Threads(out[g].sessions);
      } else {
        var i :| 0 <= i < |ws| && t in Threads(ws[i].sessions);
        assert t in Threads(out[i].sessions);
      }
    }
  }

  // ----- the bind as it runs -----

  function LastIndex(sessions: seq<Thread>, id: string): Option<nat> {
    if sessions == [] then None
    else if sessions[|sessions| - 1].id == id then Some(|sessions| - 1)
    else LastIndex(sessions[..|sessions| - 1], id)
  }

  function Locate(ws: seq<Workspace>, id: string): Option<Place> {
    if ws == [] then None
    else
      var n := |ws| - 1;
      match LastIndex(ws[n].sessions, id)
      case Some(i) => Some(Place(n, i))
      case None => Locate(ws[..n], id)
  }

  lemma {:induction false} LastIndexIsLast(sessions: seq<Thread>, id: string)
    ensures match LastIndex(sessions, id)
            case None => forall k | 0 <= k < |sessions| :: sessions[k].id != id
            case Some(i) =>
              && i < |sessions| && sessions[i].id == id
              && forall k | i < k < |sessions| :: sessions[k].id != id
  {
    if sessions != [] {
      LastIndexIsLast(sessions[..|sessions| - 1], id);
    }
  }

  lemma {:induction false} LocateIsLast(ws: seq<Workspace>, id: string)
    ensures IsLastPlace(ws, id, Locate(ws, id))
  {
    if ws != [] {
      var n := |ws| - 1;
      LastIndexIsLast(ws[n].sessions, id);
      LocateIsLast(ws[..n], id);
    }
  }

  /** One workspace of the search; `before` is what the earlier ones gave. */
  method LocateIn(sessions: seq<Thread>, workspaceIndex: nat, id: string, before: Option<Place>)
    returns (found: Option<Place>)
    ensures found == match LastIndex(sessions, id) case Some(i) => Some(Place(workspaceIndex, i)) case None => before
  {
    found := before;
    for threadIndex := 0 to |sessions|
      invariant found == match LastIndex(sessions[..threadIndex], id)
                         case Some(i) => Some(Place(workspaceIndex, i))
                         case None => before
    {
      assert sessions[..threadIndex + 1][..threadIndex] == sessions[..threadIndex];
      if sessions[threadIndex].id == id {
        found := Some(Place(workspaceIndex, threadIndex));
      }
    }
    assert sessions[..|sessions|] == sessions;
  }

  method LocateBoth(ws: seq<Workspace>, sourceID: string, targetID: string)
    returns (source: Option<Place>, target: Option<Place>)
    ensures source == Locate(ws, sourceID) && target == Locate(ws, targetID)
  {
    source, target := None, None;
    for i := 0 to |ws|
      invariant source == Locate(ws[..i], sourceID) && target == Locate(ws[..i], targetID)
    {
      assert ws[..i + 1][..i] == ws[..i];
      source := LocateIn(ws[i].sessions, i, sourceID, source);
      target := LocateIn(ws[i].sessions, i, targetID, target);
    }
    assert ws[..|ws|] == ws;
  }

  method KeepFirst(sessions: seq<Thread>) returns (kept: seq<Thread>)
    ensures kept == Dedup(sessions, {})
  {
    var hasDup: set<string> := {};
    kept := [];
    var i := 0;
    while i < |sessions|
      invariant i <= |sessions|
      invariant Dedup(sessions, {}) == kept + Dedup(sessions[i..], hasDup)
    {
      var thread := sessions[i];
      assert sessions[i..][0] == thread && sessions[i..][1..] == sessions[i + 1..];
      i := i + 1;
      if thread.id !in hasDup {
        hasDup := hasDup + {thread.id};
        kept := kept + [thread];
      }
    }
  }

  function Retitled(ws: seq<Workspace>, p: Place, title: string): seq<Workspace>
    requires IsPlace(ws, p)
  {
    if JsTrim(At(ws, p).title) == title then ws
    else ws[p.workspace := Put(ws[p.workspace], p.thread, At(ws, p).(title := title))]
  }

  function BindWorkspaces(ws: seq<Workspace>, sourceID: string, targetID: string, title: string): seq<Workspace> {
    LocateIsLast(ws, sourceID);
    LocateIsLast(ws, targetID);
    match (Locate(ws, sourceID), Locate(ws, targetID))
    case (None, None) => ws
    case (None, Some(p)) => if title == "" then ws else Retitled(ws, p, title)
    case (Some(source), target) => BoundAll(ws, source, target, sourceID, targetID, title)
  }

  method BindInPlace(prev: seq<Workspace>, source: Place, target: Option<Place>, sourceID: string, targetID: string,
        title: string)
    returns (next: seq<Workspace>)
    requires IsPlace(prev, source) && (target.Some? ==> IsPlace(prev, target.value))
    ensures next == BoundAll(prev, source, target, sourceID, targetID, title)
  {
    next := prev;
    var sourceThread := At(prev, source);
    if target.Some? {
      var t := target.value;
      next := next[t.workspace := Put(next[t.workspace], t.thread, Merge(sourceThread, At(prev, t), title))];
    } else {
      next := next[source.workspace := Put(next[source.workspace], source.thread,
                                           Rename(sourceThread, targetID, title))];
    }
    if target.Some? && target.value != source {
      next := next[source.workspace := WithoutSource(next[source.workspace], source.thread, sourceID)];
    }
    ghost var kept := next;
    for k := 0 to |next|
      invariant |next| == |prev|
      invariant forall i | 0 <= i < k :: next[i] == Settle(kept[i], sourceID, targetID)
      invariant forall i | k <= i < |next| :: next[i] == kept[i]
    {
      var workspace := next[k];
      if workspace.activeSessionID == sourceID {
        workspace := workspace.(activeSessionID := targetID);
      }
      var sessions := KeepFirst(workspace.sessions);
      next := next[k := workspace.(sessions := sessions)];
    }
    assert forall k | 0 <= k < |prev| :: next[k] == BoundWorkspace(prev, k, source, target, sourceID, targetID, title);
  }

  /** The tree after a bind, and the id the caller goes on with. */
  function BindThreadID(t: Tree, currentID: string, remoteID: string, newTitle: string): (Tree, string) {
    var sourceID, targetID, title, ws := JsTrim(currentID), JsTrim(remoteID), JsTrim(newTitle), t.workspaces;
    if sourceID == "" || targetID == "" then (t, Either(sourceID, targetID))
    else if sourceID == targetID then
      (if title == "" then t else t.(workspaces := TitleAll(ws, targetID, title)), targetID)
    else
      var sourceWorkspaceID := match HolderOf(ws, sourceID) case None => "" case Some(w) => w.id;
      var targetWorkspaceID := match HolderOf(ws, targetID) case None => sourceWorkspaceID case Some(w) => w.id;
      (Tree(BindWorkspaces(ws, sourceID, targetID, title),
            if t.activeWorkspaceID == sourceWorkspaceID && targetWorkspaceID != "" then targetWorkspaceID
            else t.activeWorkspaceID,
            if t.activeJobThreadID == sourceID then targetID else t.activeJobThreadID),
       targetID)
  }

  function TitleAll(ws: seq<Workspace>, id: string, title: string): (out: seq<Workspace>)
    ensures |out| == |ws|
  {
    seq(|ws|, i requires 0 <= i < |ws| => ws[i].(sessions := TitleSessions(ws[i].sessions, id, title)))
  }

  function TitleSessions(sessions: seq<Thread>, id: string, title: string): (out: seq<Thread>)
    ensures |out| == |sessions|
    ensures forall i | 0 <= i < |sessions| :: out[i].id == sessions[i].id
  {
    seq(|sessions|, i requires 0 <= i < |sessions| =>
      if sessions[i].id == id && JsTrim(sessions[i].title) != title then sessions[i].(title := title) else sessions[i])
  }

  method Bind(t: Tree, currentID: string, remoteID: string, newTitle: string) returns (out: Tree, id: string)
    ensures (out, id) == BindThreadID(t, currentID, remoteID, newTitle)
  {
    var sourceID, targetID, nextTitle := JsTrim(currentID), JsTrim(remoteID), JsTrim(newTitle);
    if sourceID == "" || targetID == "" {
      return t, Either(sourceID, targetID);
    }
    if sourceID == targetID {
      out := t;
      if nextTitle != "" {
        out := t.(workspaces := TitleAll(t.workspaces, targetID, nextTitle));
      }
      return out, targetID;
    }
    var sourceHolder, targetHolder := HolderOf(t.workspaces, sourceID), HolderOf(t.workspaces, targetID);
    var sourceWorkspaceID := if sourceHolder.Some? then sourceHolder.value.id else "";
    var targetWorkspaceID := if targetHolder.Some? then targetHolder.value.id else sourceWorkspaceID;
    var next := BindEach(t.workspaces, sourceID, targetID, nextTitle);
    out := t.(workspaces := next);
    if t.activeWorkspaceID == sourceWorkspaceID && targetWorkspaceID != "" {
      out := out.(activeWorkspaceID := targetWorkspaceID);
    }
    if t.activeJobThreadID == sourceID {
      out := out.(activeJobThreadID := targetID);
    }
    return out, targetID;
  }

  method BindEach(prev: seq<Workspace>, sourceID: string, targetID: string, nextTitle: string)
    returns (next: seq<Workspace>)
    ensures next == BindWorkspaces(prev, sourceID, targetID, nextTitle)
  {
    var source, target := LocateBoth(prev, sourceID, targetID);
    LocateIsLast(prev, sourceID);
    LocateIsLast(prev, targetID);
    if source.Some? {
      next := BindInPlace(prev, source.value, target, sourceID, targetID, nextTitle);
    } else if target.Some? && nextTitle != "" {
      next := Retitled(prev, target.value, nextTitle);
    } else {
      next := prev;
    }
  }

  // ----- what the bind keeps -----

  lemma SameIDs(v: Workspace, w: Workspace)
    requires WorkspaceOk(v) && |w.sessions| == |v.sessions| && w.activeSessionID == v.activeSessionID
    requires forall i | 0 <= i < |v.sessions| :: w.sessions[i].id == v.sessions[i].id
    ensures WorkspaceOk(w) && IDs(w.sessions) == IDs(v.sessions)
  {
  }

  /** Changing only titles keeps everything. */
  lemma TitlesKeep(ws: seq<Workspace>, out: seq<Workspace>)
    requires AllOk(ws) && AllApart(ws) && |out| == |ws|
    requires forall i | 0 <= i < |ws| ::
               out[i] == ws[i].(sessions := out[i].sessions) && |out[i].sessions| == |ws[i].sessions|
    requires forall i, k | 0 <= i < |ws| && 0 <= k < |ws[i].sessions| :: out[i].sessions[k].id == ws[i].sessions[k].id
    ensures AllOk(out) && AllApart(out) && forall k: string | HasWorkspace(ws, k) :: HasWorkspace(out, k)
  {
    forall i | 0 <= i < |ws| ensures WorkspaceOk(out[i]) && IDs(out[i].sessions) == IDs(ws[i].sessions) {
      assert WorkspaceOk(ws[i]);
      SameIDs(ws[i], out[i]);
    }
    EachKeeps(ws, out, -1, {});
  }

  lemma BindWorkspacesKeeps(ws: seq<Workspace>, sourceID: string, targetID: string, title: string)
    requires AllOk(ws) && AllApart(ws) && sourceID != targetID && sourceID != "" && targetID != ""
    ensures var out := BindWorkspaces(ws, sourceID, targetID, title);
            && AllOk(out) && AllApart(out) && (forall k: string | HasWorkspace(ws, k) :: HasWorkspace(out, k))
  {
    LocateIsLast(ws, sourceID);
    LocateIsLast(ws, targetID);
    match (Locate(ws, sourceID), Locate(ws, targetID))
    case (None, None) =>
    case (None, Some(p)) => if title != "" { TitlesKeep(ws, Retitled(ws, p, title)); }
    case (Some(source), target) => BoundAllKeeps(ws, source, target, sourceID, targetID, title);
  }

  lemma TitleAllKeeps(ws: seq<Workspace>, id: string, title: string)
    requires AllOk(ws) && AllApart(ws)
    ensures var out := TitleAll(ws, id, title);
            AllOk(out) && AllApart(out) && forall k: string | HasWorkspace(ws, k) :: HasWorkspace(out, k)
  {
    TitlesKeep(ws, TitleAll(ws, id, title));
  }

  lemma HolderIsListed(ws: seq<Workspace>, id: string)
    ensures HolderOf(ws, id).Some? ==> HasWorkspace(ws, HolderOf(ws, id).value.id)
  {
    if HolderOf(ws, id).Some? { HolderIsThere(ws, id); }
  }

  /** Binding any id to any other keeps the tree well formed. */
  lemma BindKeeps(t: Tree, currentID: string, remoteID: string, newTitle: string)
    requires WellFormed(t)
    ensures WellFormed(BindThreadID(t, currentID, remoteID, newTitle).0)
  {
    var sourceID, targetID, title, ws := JsTrim(currentID), JsTrim(remoteID), JsTrim(newTitle), t.workspaces;
    if sourceID == "" || targetID == "" {
    } else if sourceID == targetID {
      TitleAllKeeps(ws, targetID, title);
    } else {
      BindWorkspacesKeeps(ws, sourceID, targetID, title);
      HolderIsListed(ws, sourceID);
      HolderIsListed(ws, targetID);
    }
  }

  lemma OneThreadPerID(ws: seq<Workspace>, p: Place, thread: Thread)
    requires AllOk(ws) && AllApart(ws) && IsPlace(ws, p) && thread in AllThreads(ws) && thread.id == At(ws, p).id
    ensures thread == At(ws, p)
  {
    var i :| 0 <= i < |ws| && thread in Threads(ws[i].sessions);
    var k :| 0 <= k < |ws[i].sessions| && ws[i].sessions[k] == thread;
    assert thread.id in IDs(ws[i].sessions);
    if i != p.workspace { OnlyThere(ws, p, i); }
    assert WorkspaceOk(ws[i]);
  }

  lemma Located(ws: seq<Workspace>, thread: Thread)
    requires AllOk(ws) && AllApart(ws) && thread in AllThreads(ws)
    ensures Locate(ws, thread.id).Some? && IsPlace(ws, Locate(ws, thread.id).value)
            && At(ws, Locate(ws, thread.id).value) == thread
  {
    LocateIsLast(ws, thread.id);
    var i :| 0 <= i < |ws| && thread in Threads(ws[i].sessions);
    var k :| 0 <= k < |ws[i].sessions| && ws[i].sessions[k] == thread;
    OneThreadPerID(ws, Locate(ws, thread.id).value, thread);
  }

  lemma NotLocated(ws: seq<Workspace>, id: string)
    requires id !in AllIDs(ws)
    ensures Locate(ws, id) == None
  {
    LocateIsLast(ws, id);
    if Locate(ws, id).Some? { PlaceID(ws, Locate(ws, id).value); }
  }

  lemma BindRenames(ws: seq<Workspace>, source: Thread, targetID: string, title: string)
    requires AllOk(ws) && AllApart(ws) && source in AllThreads(ws)
    requires targetID != "" && targetID !in AllIDs(ws)
    ensures var out := BindWorkspaces(ws, source.id, targetID, title);
            && AllIDs(out) == (AllIDs(ws) - {source.id}) + {targetID}
            && AllThreads(out) == (AllThreads(ws) - {source}) + {Rename(source, targetID, title)}
  {
    LocateIsLast(ws, source.id);
    LocateIsLast(ws, targetID);
    Located(ws, source);
    NotLocated(ws, targetID);
    var p := Locate(ws, source.id).value;
    PlaceID(ws, p);
    assert WorkspaceOk(ws[p.workspace]) && source.id in AllIDs(ws);
    BoundAllKeeps(ws, p, None, source.id, targetID, title);
    BoundAllThreads(ws, p, None, source.id, targetID, title);
    assert Lost(ws, p, None) == {source};
  }

  lemma BindMerges(ws: seq<Workspace>, source: Thread, target: Thread, title: string)
    requires AllOk(ws) && AllApart(ws) && source in AllThreads(ws) && target in AllThreads(ws)
    requires source.id != target.id
    ensures var out := BindWorkspaces(ws, source.id, target.id, title);
            && AllIDs(out) == (AllIDs(ws) - {source.id}) + {target.id}
            && AllThreads(out) == (AllThreads(ws) - {source, target}) + {Merge(source, target, title)}
  {
    LocateIsLast(ws, source.id);
    LocateIsLast(ws, target.id);
    Located(ws, source);
    Located(ws, target);
    var p, q := Locate(ws, source.id).value, Locate(ws, target.id).value;
    PlaceID(ws, p);
    PlaceID(ws, q);
    assert WorkspaceOk(ws[p.workspace]) && WorkspaceOk(ws[q.workspace]);
    BoundAllKeeps(ws, p, Some(q), source.id, target.id, title);
    BoundAllThreads(ws, p, Some(q), source.id, target.id, title);
    assert Lost(ws, p, Some(q)) == {source, target};
  }

  /** The active thread of the workspace with this id. */
  function ActiveIn(ws: seq<Workspace>, id: string): string {
    if ws == [] then "" else if ws[0].id == id then ws[0].activeSessionID else ActiveIn(ws[1..], id)
  }

  function ActiveThread(t: Tree): string {
    ActiveIn(t.workspaces, t.activeWorkspaceID)
  }

  lemma {:induction false} ActiveAt(ws: seq<Workspace>, k: nat)
    requires AllApart(ws) && k < |ws|
    ensures ActiveIn(ws, ws[k].id) == ws[k].activeSessionID
  {
    if k > 0 {
      assert Apart(ws[0], ws[k]);
      assert forall i, j | 0 <= i < j < |ws| - 1 :: Apart(ws[1..][i], ws[1..][j]) by {
        assert forall i | 0 <= i < |ws| - 1 :: ws[1..][i] == ws[i + 1];
      }
      ActiveAt(ws[1..], k - 1);
    }
  }

  lemma HolderAt(ws: seq<Workspace>, p: Place)
    requires AllApart(ws) && IsPlace(ws, p)
    ensures HolderOf(ws, At(ws, p).id) == Some(ws[p.workspace])
  {
    var id := At(ws, p).id;
    PlaceID(ws, p);
    HoldsIDs(ws[p.workspace], id);
    var holder := HolderOf(ws, id).value;
    var k :| 0 <= k < |ws| && ws[k] == holder;
    HoldsIDs(ws[k], id);
    if k != p.workspace { OnlyThere(ws, p, k); }
  }

  lemma LastPlaceIsUnique(ws: seq<Workspace>, id: string, p: Option<Place>, q: Option<Place>)
    requires IsLastPlace(ws, id, p) && IsLastPlace(ws, id, q)
    ensures p == q
  {
  }

  /** The workspace that is active after a bind, when the a-th was. */
  function ActiveAfter(ws: seq<Workspace>, a: nat, source: Place, target: Option<Place>): (k: nat)
    requires a < |ws| && (target.Some? ==> IsPlace(ws, target.value))
    ensures k < |ws|
  {
    if a == source.workspace && target.Some? && ws[target.value.workspace].id != "" then target.value.workspace else a
  }

  lemma NowhereHeld(ws: seq<Workspace>, id: string)
    requires IsLastPlace(ws, id, None)
    ensures HolderOf(ws, id).None?
  {
    forall i | 0 <= i < |ws| ensures !Holds(ws[i], id) {
      HoldsIDs(ws[i], id);
    }
  }

  /** The places are those that the bind finds. */
  lemma BindFinds(ws: seq<Workspace>, source: Place, target: Option<Place>, sourceID: string, targetID: string,
        title: string)
    requires Bindable(ws, source, target, sourceID, targetID)
    ensures BindWorkspaces(ws, sourceID, targetID, title) == BoundAll(ws, source, target, sourceID, targetID, title)
  {
    LocateIsLast(ws, sourceID);
    LocateIsLast(ws, targetID);
    LastPlaceIsUnique(ws, sourceID, Locate(ws, sourceID), Some(source));
    LastPlaceIsUnique(ws, targetID, Locate(ws, targetID), target);
  }

  /** The workspaces that hold source and target. */
  lemma BindHolders(ws: seq<Workspace>, source: Place, target: Option<Place>, sourceID: string, targetID: string)
    requires Bindable(ws, source, target, sourceID, targetID)
    ensures HolderOf(ws, sourceID) == Some(ws[source.workspace])
    ensures HolderOf(ws, targetID) == if target.Some? then Some(ws[target.value.workspace]) else None
  {
    HolderAt(ws, source);
    if target.Some? {
      HolderAt(ws, target.value);
    } else {
      NowhereHeld(ws, targetID);
    }
  }

  lemma SameWorkspace(ws: seq<Workspace>, a: nat, b: nat)
    requires AllApart(ws) && a < |ws| && b < |ws|
    ensures ws[a].id == ws[b].id <==> a == b
  {
    if a < b { assert Apart(ws[a], ws[b]); } else if b < a { assert Apart(ws[b], ws[a]); }
  }

  /** Which workspace id becomes the active one. */
  function NextActive(active: string, source: string, target: Option<string>): string {
    if active == source && target.Some? && target.value != "" then target.value else active
  }

  lemma BindActivates(t: Tree, currentID: string, remoteID: string, newTitle: string)
    requires JsTrim(currentID) != "" && JsTrim(remoteID) != "" && JsTrim(currentID) != JsTrim(remoteID)
    requires HolderOf(t.workspaces, JsTrim(currentID)).Some?
    ensures var holder := HolderOf(t.workspaces, JsTrim(remoteID));
            BindThreadID(t, currentID, remoteID, newTitle).0.activeWorkspaceID ==
            NextActive(t.activeWorkspaceID, HolderOf(t.workspaces, JsTrim(currentID)).value.id,
                       if holder.Some? then Some(holder.value.id) else None)
  {
  }

  /** The bind as `BoundAll`, and the workspace it makes active. */
  lemma BindLands(t: Tree, a: nat, source: Place, target: Option<Place>, currentID: string, remoteID: string,
        newTitle: string)
    requires Bindable(t.workspaces, source, target, JsTrim(currentID), JsTrim(remoteID))
    requires a < |t.workspaces| && t.workspaces[a].id == t.activeWorkspaceID
    ensures var ws, sourceID, targetID, title := t.workspaces, JsTrim(currentID), JsTrim(remoteID), JsTrim(newTitle);
            var out := BindThreadID(t, currentID, remoteID, newTitle).0;
            && out.workspaces == BoundAll(ws, source, target, sourceID, targetID, title)
            && out.activeWorkspaceID == ws[ActiveAfter(ws, a, source, target)].id
  {
    var ws, sourceID, targetID := t.workspaces, JsTrim(currentID), JsTrim(remoteID);
    BindFinds(ws, source, target, sourceID, targetID, JsTrim(newTitle));
    BindHolders(ws, source, target, sourceID, targetID);
    BindActivates(t, currentID, remoteID, newTitle);
    SameWorkspace(ws, a, source.workspace);
  }

  /** When the target is in another workspace, or nowhere, it is no thread of this one. */
  lemma TargetElsewhere(ws: seq<Workspace>, a: nat, source: Place, target: Option<Place>, sourceID: string,
        targetID: string)
    requires Bindable(ws, source, target, sourceID, targetID) && a == source.workspace
    ensures target.None? || target.value.workspace != a ==>
              && ws[a].activeSessionID != targetID
              && FirstOther(ws[a].sessions, source.thread) != targetID
  {
    assert WorkspaceOk(ws[a]);
    if target.None? || target.value.workspace != a {
      if target.Some? { OnlyThere(ws, target.value, a); }
      assert targetID !in IDs(ws[a].sessions);
    }
  }

  /** The active thread after a bind, told from the tree before it. */
  lemma BoundActiveThread(t: Tree, a: nat, source: Place, target: Option<Place>, currentID: string,
        remoteID: string, newTitle: string)
    requires Bindable(t.workspaces, source, target, JsTrim(currentID), JsTrim(remoteID))
    requires a < |t.workspaces| && t.workspaces[a].id == t.activeWorkspaceID
    ensures var ws, sourceID, targetID := t.workspaces, JsTrim(currentID), JsTrim(remoteID);
            var k := ActiveAfter(ws, a, source, target);
            ActiveThread(BindThreadID(t, currentID, remoteID, newTitle).0) ==
            if k != source.workspace || ws[k].activeSessionID != sourceID then ws[k].activeSessionID
            else if target.None? then targetID
            else FirstOther(ws[k].sessions, source.thread)
  {
    var ws, sourceID, targetID, title := t.workspaces, JsTrim(currentID), JsTrim(remoteID), JsTrim(newTitle);
    var k, out := ActiveAfter(ws, a, source, target), BoundAll(ws, source, target, sourceID, targetID, title);
    BindLands(t, a, source, target, currentID, remoteID, newTitle);
    BoundAllKeeps(ws, source, target, sourceID, targetID, title);
    BoundEach(ws, k, source, target, sourceID, targetID, title);
    ActiveAt(out, k);
    BoundActive(ws, k, source, target, sourceID, targetID, title);
  }

  /** Which workspace is active after a bind, and when the bound thread is the active one: exactly when the active
      workspace is not the source's and has it active already; or the source was active there and is renamed, or
      is merged into the first other thread; or the target was the active thread of its workspace, which stays or
      becomes the active one. */
  lemma BoundIsActiveExactlyWhen(t: Tree, a: nat, source: Place, target: Option<Place>, currentID: string,
        remoteID: string, newTitle: string)
    requires Bindable(t.workspaces, source, target, JsTrim(currentID), JsTrim(remoteID))
    requires a < |t.workspaces| && t.workspaces[a].id == t.activeWorkspaceID
    ensures var ws, sourceID, targetID := t.workspaces, JsTrim(currentID), JsTrim(remoteID);
            var out := BindThreadID(t, currentID, remoteID, newTitle).0;
            && out.activeWorkspaceID == ws[ActiveAfter(ws, a, source, target)].id
            && (ActiveThread(out) == targetID <==>
                if a != source.workspace then ws[a].activeSessionID == targetID
                else if target.None? then ws[a].activeSessionID == sourceID
                else if target.value.workspace != a then
                  ws[target.value.workspace].id != "" && ws[target.value.workspace].activeSessionID == targetID
                else if ws[a].activeSessionID == sourceID then FirstOther(ws[a].sessions, source.thread) == targetID
                else ws[a].activeSessionID == targetID)
  {
    BindLands(t, a, source, target, currentID, remoteID, newTitle);
    BoundActiveThread(t, a, source, target, currentID, remoteID, newTitle);
    if a == source.workspace {
      TargetElsewhere(t.workspaces, a, source, target, JsTrim(currentID), JsTrim(remoteID));
    }
  }

  function Named(id: string): Thread {
    NewSession(id, id)
  }

  lemma NamedAre(w: Workspace)
    requires |w.sessions| <= 3 && w.activeSessionID in IDs(w.sessions)
    requires forall i | 0 <= i < |w.sessions| :: w.sessions[i].id != ""
    requires forall i, j | 0 <= i < j < |w.sessions| :: w.sessions[i].id != w.sessions[j].id
    ensures WorkspaceOk(w)
  {
  }

  /** Threads u, s and t with s active: bound to t of the same workspace, s hands over to u. */
  lemma BindLosesFocus() returns (tree: Tree)
    ensures tree == Tree([Workspace("w", "h", "p", [Named("u"), Named("s"), Named("t")], "s")], "w", "s")
    ensures WellFormed(tree) && ActiveThread(BindThreadID(tree, "s", "t", "").0) == "u"
  {
    var w := Workspace("w", "h", "p", [Named("u"), Named("s"), Named("t")], "s");
    tree := Tree([w], "w", "s");
    assert w.sessions[1].id in IDs(w.sessions);
    NamedAre(w);
    assert JsTrim("s") == "s" && JsTrim("t") == "t";
    assert tree.workspaces[0].id == "w";
    BoundActiveThread(tree, 0, Place(0, 1), Some(Place(0, 2)), "s", "t", "");
  }

  ghost predicate AloneBesideTwo(tree: Tree, s: Thread, u: Thread, t: Thread) {
    && WellFormed(tree) && |tree.workspaces| == 2
    && var v, w := tree.workspaces[0], tree.workspaces[1];
       && v.sessions == [s] && v.activeSessionID == s.id && w.sessions == [u, t] && w.activeSessionID == u.id
       && tree.activeWorkspaceID == v.id && w.id != ""
       && s.id != "" && t.id != "" && JsTrim(s.id) == s.id && JsTrim(t.id) == t.id && s.id !in {u.id, t.id}
  }

  lemma AloneIsBindable(tree: Tree, s: Thread, u: Thread, t: Thread)
    requires AloneBesideTwo(tree, s, u, t)
    ensures Bindable(tree.workspaces, Place(0, 0), Some(Place(1, 1)), s.id, t.id)
  {
    assert WorkspaceOk(tree.workspaces[1]);
  }

  lemma AloneLosesFocus(tree: Tree, s: Thread, u: Thread, t: Thread)
    requires AloneBesideTwo(tree, s, u, t)
    ensures var out := BindThreadID(tree, s.id, t.id, "").0;
            && out.activeWorkspaceID == tree.workspaces[1].id && ActiveThread(out) == u.id
            && ActiveIn(out.workspaces, tree.workspaces[0].id) == ""
  {
    var ws, source, target := tree.workspaces, Place(0, 0), Some(Place(1, 1));
    AloneIsBindable(tree, s, u, t);
    BindLands(tree, 0, source, target, s.id, t.id, "");
    BoundActiveThread(tree, 0, source, target, s.id, t.id, "");
    BoundActive(ws, 0, source, target, s.id, t.id, JsTrim(""));
    BoundAllKeeps(ws, source, target, s.id, t.id, JsTrim(""));
    BoundEach(ws, 0, source, target, s.id, t.id, JsTrim(""));
    ActiveAt(BoundAll(ws, source, target, s.id, t.id, JsTrim("")), 0);
  }

  lemma NamedAloneBesideTwo(tree: Tree)
    requires tree == Tree([Workspace("1", "h", "p", [Named("s")], "s"),
                           Workspace("2", "h", "q", [Named("u"), Named("t")], "u")], "1", "s")
    ensures AloneBesideTwo(tree, Named("s"), Named("u"), Named("t"))
  {
    var v, w := tree.workspaces[0], tree.workspaces[1];
    assert v.sessions[0].id in IDs(v.sessions) && w.sessions[0].id in IDs(w.sessions);
    NamedAre(v);
    NamedAre(w);
    assert JsTrim("s") == "s" && JsTrim("t") == "t";
  }

  /** Thread s alone and active in the active workspace, u and t with u active in another: bound to t, s goes, that
      other workspace becomes active, and its active thread stays u. */
  lemma BindIntoAnotherLosesFocus() returns (tree: Tree)
    ensures tree == Tree([Workspace("1", "h", "p", [Named("s")], "s"),
                          Workspace("2", "h", "q", [Named("u"), Named("t")], "u")], "1", "s")
    ensures WellFormed(tree)
    ensures var out := BindThreadID(tree, "s", "t", "").0;
            out.activeWorkspaceID == "2" && ActiveThread(out) == "u" && ActiveIn(out.workspaces, "1") == ""
  {
    tree := Tree([Workspace("1", "h", "p", [Named("s")], "s"),
                  Workspace("2", "h", "q", [Named("u"), Named("t")], "u")], "1", "s");
    NamedAloneBesideTwo(tree);
    AloneLosesFocus(tree, Named("s"), Named("u"), Named("t"));
  }

  /** Binding S to T turns the ids into (ids - S) + T. The thread that results has T's id; its timeline is
      T's, or S's when T has none or an empty one; all other threads stay as they were. */
  lemma BindReplacesOneThread(t: Tree, currentID: string, remoteID: string, newTitle: string, source: Thread)
    requires WellFormed(t) && source in AllThreads(t.workspaces) && source.id == JsTrim(currentID)
    requires JsTrim(remoteID) != "" && JsTrim(currentID) != "" && JsTrim(currentID) != JsTrim(remoteID)
    ensures var ws, targetID := t.workspaces, JsTrim(remoteID);
            var out := BindThreadID(t, currentID, remoteID, newTitle).0.workspaces;
            && AllIDs(out) == (AllIDs(ws) - {source.id}) + {targetID}
            && (targetID !in AllIDs(ws) ==>
                  var renamed := Rename(source, targetID, JsTrim(newTitle));
                  && AllThreads(out) == (AllThreads(ws) - {source}) + {renamed}
                  && renamed.id == targetID && renamed.timeline == source.timeline)
            && (forall target | target in AllThreads(ws) && target.id == targetID ::
                  var merged := Merge(source, target, JsTrim(newTitle));
                  && AllThreads(out) == (AllThreads(ws) - {source, target}) + {merged}
                  && merged.id == targetID
                  && merged.timeline == if target.timeline != [] then target.timeline else source.timeline)
  {
    var ws, targetID, title := t.workspaces, JsTrim(remoteID), JsTrim(newTitle);
    assert BindThreadID(t, currentID, remoteID, newTitle).0.workspaces ==
           BindWorkspaces(ws, source.id, targetID, title);
    if targetID !in AllIDs(ws) {
      BindRenames(ws, source, targetID, title);
    } else {
      ThreadOfID(ws, targetID);
    }
    forall target | target in AllThreads(ws) && target.id == targetID
      ensures AllIDs(BindWorkspaces(ws, source.id, targetID, title)) == (AllIDs(ws) - {source.id}) + {targetID}
      ensures AllThreads(BindWorkspaces(ws, source.id, targetID, title)) ==
              (AllThreads(ws) - {source, target}) + {Merge(source, target, title)}
    {
      BindMerges(ws, source, target, title);
    }
  }

  lemma ThreadOfID(ws: seq<Workspace>, id: string)
    requires id in AllIDs(ws)
    ensures exists thread :: thread in AllThreads(ws) && thread.id == id
  {
    var i :| 0 <= i < |ws| && id in IDs(ws[i].sessions);
    var k :| 0 <= k < |ws[i].sessions| && ws[i].sessions[k].id == id;
    assert ws[i].sessions[k] in Threads(ws[i].sessions);
    assert ws[i].sessions[k] in AllThreads(ws);
  }
}
