/** What a project sync leaves in the tree: the workspaces and sessions in their order, what each keeps of before,
    and what is active. */
module ProjectResults {
  import opened Wrappers
  import opened Text
  import opened ThreadTree
  import opened ProjectSync

  // ----- the sessions of one project -----

  function IDList(sessions: seq<Thread>): (ids: seq<string>)
    ensures |ids| == |sessions|
  {
    seq(|sessions|, i requires 0 <= i < |sessions| => sessions[i].id)
  }

  function TrimmedIDs(ds: seq<Discovered>): (ids: seq<string>)
    ensures |ids| == |ds|
  {
    seq(|ds|, i requires 0 <= i < |ds| => JsTrim(ds[i].id))
  }

  /** The ids that are not blank and were not seen before, each at its first place. */
  function FirstSeen(ids: seq<string>, seen: set<string>): seq<string>
    decreases |ids|
  {
    if ids == [] then []
    else if ids[0] == "" || ids[0] in seen then FirstSeen(ids[1..], seen)
    else [ids[0]] + FirstSeen(ids[1..], seen + {ids[0]})
  }

  function Among(ids: seq<string>): set<string> {
    set i | 0 <= i < |ids| && ids[i] != "" :: ids[i]
  }

  lemma AmongFront(ids: seq<string>)
    requires ids != []
    ensures Among(ids) == (if ids[0] != "" then {ids[0]} else {}) + Among(ids[1..])
  {
    assert forall i | 0 < i < |ids| :: ids[i] == ids[1..][i - 1];
    forall id | id in Among(ids[1..]) ensures id in Among(ids) {
      var i :| 0 <= i < |ids| - 1 && ids[1..][i] == id && id != "";
      assert ids[i + 1] == id;
    }
  }

  lemma {:induction false} FirstSeenSnoc(ids: seq<string>, id: string, seen: set<string>)
    ensures FirstSeen(ids + [id], seen) ==
            FirstSeen(ids, seen) + if id == "" || id in seen || id in Among(ids) then [] else [id]
    decreases |ids|
  {
    if ids == [] {
      assert [] + [id] == [id] && [id][1..] == [];
    } else {
      var seen' := if ids[0] == "" then seen else seen + {ids[0]};
      assert (ids + [id])[1..] == ids[1..] + [id];
      AmongFront(ids);
      if ids[0] != "" && ids[0] !in seen {
        FirstSeenSnoc(ids[1..], id, seen + {ids[0]});
      } else {
        FirstSeenSnoc(ids[1..], id, seen);
      }
    }
  }

  lemma IDListSnoc(sessions: seq<Thread>, thread: Thread)
    ensures IDList(sessions + [thread]) == IDList(sessions) + [thread.id]
  {
  }

  lemma TrimmedIDsSnoc(ds: seq<Discovered>)
    requires ds != []
    ensures TrimmedIDs(ds) == TrimmedIDs(ds[..|ds| - 1]) + [JsTrim(ds[|ds| - 1].id)]
  {
  }

  lemma HasListed(sessions: seq<Thread>, id: string)
    ensures Has(sessions, id) <==> id in IDList(sessions)
  {
    if Has(sessions, id) {
      var i :| 0 <= i < |sessions| && sessions[i].id == id;
      assert IDList(sessions)[i] == id;
    }
  }

  lemma {:induction false} FirstSeenAll(ids: seq<string>, seen: set<string>, id: string)
    ensures id in FirstSeen(ids, seen) <==> id in Among(ids) && id !in seen
    decreases |ids|
  {
    if ids != [] {
      AmongFront(ids);
      if ids[0] == "" || ids[0] in seen {
        FirstSeenAll(ids[1..], seen, id);
      } else {
        FirstSeenAll(ids[1..], seen + {ids[0]}, id);
      }
    }
  }

  /** The listed sessions are the ids that are not blank, each once, in the order of their first mention. */
  lemma {:induction false} ListedInOrder(ds: seq<Discovered>, threads: map<string, Thread>)
    ensures IDList(Listed(ds, threads)) == FirstSeen(TrimmedIDs(ds), {})
    decreases |ds|
  {
    if ds != [] {
      var n := |ds| - 1;
      var rest, id := Listed(ds[..n], threads), JsTrim(ds[n].id);
      ListedInOrder(ds[..n], threads);
      TrimmedIDsSnoc(ds);
      FirstSeenSnoc(TrimmedIDs(ds[..n]), id, {});
      HasListed(rest, id);
      FirstSeenAll(TrimmedIDs(ds[..n]), {}, id);
      IDListSnoc(rest, Refreshed(id, ds[n].title, Find(threads, id)));
    }
  }

  /** The title of the first entry that lists this id. */
  ghost predicate FirstTitle(ds: seq<Discovered>, id: string, title: string) {
    exists i: nat :: TitledAt(ds, i, id, title)
  }

  predicate TitledAt(ds: seq<Discovered>, i: nat, id: string, title: string) {
    i < |ds| && JsTrim(ds[i].id) == id && ds[i].title == title && forall k | 0 <= k < i :: JsTrim(ds[k].id) != id
  }

  /** A listed thread has its listed title, or else its own, or else its id; it is otherwise what it was, and a new
      one is empty, idle, read and unpinned. */
  ghost predicate IsRefreshed(now: Thread, id: string, title: string, prior: Option<Thread>) {
    && now.id == id
    && now.title == (if JsTrim(title) != "" then JsTrim(title)
                     else if prior.Some? && prior.value.title != "" then prior.value.title else id)
    && match prior
       case Some(p) => now == p.(id := now.id, title := now.title)
       case None =>
         && now.draft == "" && now.timeline == [] && now.model == "" && now.configFlags == [] && now.resumeLast
         && now.activeJobID == "" && now.lastJobStatus == Idle && !now.unreadDone && !now.pinned
  }

  lemma RefreshedSays(id: string, title: string, prior: Option<Thread>)
    ensures IsRefreshed(Refreshed(id, title, prior), id, title, prior)
  {
  }

  lemma TitledAtSnoc(front: seq<Discovered>, last: Discovered, i: nat, id: string, title: string)
    requires TitledAt(front, i, id, title)
    ensures TitledAt(front + [last], i, id, title)
  {
  }

  lemma FirstTitleSnoc(ds: seq<Discovered>, id: string, title: string)
    requires ds != [] && FirstTitle(ds[..|ds| - 1], id, title)
    ensures FirstTitle(ds, id, title)
  {
    var front, last := ds[..|ds| - 1], ds[|ds| - 1];
    var i: nat :| TitledAt(front, i, id, title);
    TitledAtSnoc(front, last, i, id, title);
    assert front + [last] == ds;
  }

  lemma FirstTitleLast(ds: seq<Discovered>, id: string)
    requires ds != [] && JsTrim(ds[|ds| - 1].id) == id != "" && id !in Among(TrimmedIDs(ds[..|ds| - 1]))
    ensures FirstTitle(ds, id, ds[|ds| - 1].title)
  {
    var front := ds[..|ds| - 1];
    forall k | 0 <= k < |front| ensures JsTrim(ds[k].id) != id {
      assert TrimmedIDs(front)[k] == JsTrim(ds[k].id);
    }
    assert TitledAt(ds, |front|, id, ds[|front|].title);
  }

  lemma NewlyListed(ds: seq<Discovered>, threads: map<string, Thread>)
    requires ds != []
    requires var id := JsTrim(ds[|ds| - 1].id); id != "" && !Has(Listed(ds[..|ds| - 1], threads), id)
    ensures var last := ds[|ds| - 1];
            FirstTitle(ds, JsTrim(last.id), last.title)
  {
    var front, id := ds[..|ds| - 1], JsTrim(ds[|ds| - 1].id);
    ListedInOrder(front, threads);
    HasListed(Listed(front, threads), id);
    FirstSeenAll(TrimmedIDs(front), {}, id);
    FirstTitleLast(ds, id);
  }

  /** Each listed session is the thread of its id, refreshed by its first mention. */
  lemma {:induction false} ListedIsRefreshed(ds: seq<Discovered>, threads: map<string, Thread>, j: nat)
    returns (title: string)
    requires j < |Listed(ds, threads)|
    ensures var now := Listed(ds, threads)[j];
            FirstTitle(ds, now.id, title) && IsRefreshed(now, now.id, title, Find(threads, now.id))
    decreases |ds|
  {
    var n := |ds| - 1;
    var rest, id := Listed(ds[..n], threads), JsTrim(ds[n].id);
    if j < |rest| {
      title := ListedIsRefreshed(ds[..n], threads, j);
      FirstTitleSnoc(ds, rest[j].id, title);
    } else {
      title := ds[n].title;
      NewlyListed(ds, threads);
      RefreshedSays(id, title, Find(threads, id));
    }
  }

  /** The prior sessions whose ids are not among `known` and not repeated, in order. */
  function Unknown(prior: seq<Thread>, known: set<string>): seq<Thread>
    decreases |prior|
  {
    if prior == [] then []
    else if prior[0].id in known then Unknown(prior[1..], known)
    else [prior[0]] + Unknown(prior[1..], known + {prior[0].id})
  }

  lemma {:induction false} UnknownSnoc(prior: seq<Thread>, last: Thread, known: set<string>)
    ensures Unknown(prior + [last], known) ==
            Unknown(prior, known) + if last.id in known || last.id in IDs(prior) then [] else [last]
    decreases |prior|
  {
    if prior == [] {
      assert [] + [last] == [last] && [last][1..] == [] && IDs(prior) == {};
    } else {
      assert (prior + [last])[1..] == prior[1..] + [last];
      assert [prior[0]] + prior[1..] == prior;
      IDsFront(prior);
      UnknownSnoc(prior[1..], last, if prior[0].id in known then known else known + {prior[0].id});
    }
  }

  lemma IDsFront(sessions: seq<Thread>)
    requires sessions != []
    ensures IDs(sessions) == {sessions[0].id} + IDs(sessions[1..])
  {
    assert forall i | 0 < i < |sessions| :: sessions[i] == sessions[1..][i - 1];
    forall id | id in IDs(sessions[1..]) ensures id in IDs(sessions) {
      var i :| 0 <= i < |sessions| - 1 && sessions[1..][i].id == id;
      assert sessions[i + 1].id == id;
    }
  }

  /** Kept sessions follow the listed ones, unchanged and in their old order. */
  lemma {:induction false} MissingFollow(sessions: seq<Thread>, prior: seq<Thread>)
    ensures WithMissing(sessions, prior) == sessions + Unknown(prior, IDs(sessions))
    decreases |prior|
  {
    if prior == [] {
      assert sessions + [] == sessions;
    } else {
      var n := |prior| - 1;
      var front, last := prior[..n], prior[n];
      var rest := WithMissing(sessions, front);
      MissingFollow(sessions, front);
      UnknownSnoc(front, last, IDs(sessions));
      assert front + [last] == prior;
      WithMissingIDs(sessions, front);
      HasIDs(rest, last.id);
      assert sessions + (Unknown(front, IDs(sessions)) + [last]) == sessions + Unknown(front, IDs(sessions)) + [last];
    }
  }

  // ----- which workspace a project continues -----

  /** What the index finds under an id. */
  lemma {:induction false} IndexedByID(ws: seq<Workspace>, id: string) returns (k: nat)
    ensures id in ProjectSync.IndexOf(ws).workspaces ==>
              IsLastWithID(ws, id, k) && ws[k] == ProjectSync.IndexOf(ws).workspaces[id]
    ensures id !in ProjectSync.IndexOf(ws).workspaces ==> NoneWithID(ws, id)
    decreases |ws|
  {
    k := 0;
    if ws != [] {
      var front, w := ws[..|ws| - 1], ws[|ws| - 1];
      k := IndexedByID(front, id);
      LastWithIDSnoc(front, w, id, k);
      assert front + [w] == ws;
      if w.id == id { k := |front|; }
    }
  }

  /** The last workspace with this id. */
  predicate IsLastWithID(ws: seq<Workspace>, id: string, k: nat) {
    k < |ws| && ws[k].id == id && forall j | k < j < |ws| :: ws[j].id != id
  }

  predicate NoneWithID(ws: seq<Workspace>, id: string) {
    forall k | 0 <= k < |ws| :: ws[k].id != id
  }

  lemma LastWithIDSnoc(front: seq<Workspace>, w: Workspace, id: string, k: nat)
    ensures w.id == id ==> IsLastWithID(front + [w], id, |front|)
    ensures w.id != id && IsLastWithID(front, id, k) ==> IsLastWithID(front + [w], id, k)
    ensures w.id != id && NoneWithID(front, id) ==> NoneWithID(front + [w], id)
  {
  }

  /** The last workspace at this place. */
  predicate IsLastAt(ws: seq<Workspace>, key: string, k: nat) {
    && k < |ws| && HostPathID(ws[k].hostID, ws[k].path) == key
    && forall j | k < j < |ws| :: HostPathID(ws[j].hostID, ws[j].path) != key
  }

  predicate NoneAt(ws: seq<Workspace>, key: string) {
    forall k | 0 <= k < |ws| :: HostPathID(ws[k].hostID, ws[k].path) != key
  }

  lemma LastAtSnoc(front: seq<Workspace>, w: Workspace, key: string, k: nat)
    ensures HostPathID(w.hostID, w.path) == key ==> IsLastAt(front + [w], key, |front|)
    ensures HostPathID(w.hostID, w.path) != key && IsLastAt(front, key, k) ==> IsLastAt(front + [w], key, k)
    ensures HostPathID(w.hostID, w.path) != key && NoneAt(front, key) ==> NoneAt(front + [w], key)
  {
  }

  lemma {:induction false} IndexedByPlace(ws: seq<Workspace>, key: string) returns (k: nat)
    ensures key in ProjectSync.IndexOf(ws).hostPaths ==>
              IsLastAt(ws, key, k) && ws[k] == ProjectSync.IndexOf(ws).hostPaths[key]
    ensures key !in ProjectSync.IndexOf(ws).hostPaths ==> NoneAt(ws, key)
    decreases |ws|
  {
    k := 0;
    if ws != [] {
      var front, w := ws[..|ws| - 1], ws[|ws| - 1];
      k := IndexedByPlace(front, key);
      LastAtSnoc(front, w, key, k);
      assert front + [w] == ws;
      if HostPathID(w.hostID, w.path) == key { k := |front|; }
    }
  }

  /** Hosts without a colon: the key tells host and path apart, up to surrounding white space. */
  lemma PlaceKeyIsInjective(hostID: string, path: string, hostID': string, path': string)
    requires ':' !in JsTrim(hostID) && ':' !in JsTrim(hostID')
    requires HostPathID(hostID, path) == HostPathID(hostID', path')
    ensures JsTrim(hostID) == JsTrim(hostID') && JsTrim(path) == JsTrim(path')
  {
    KeyParts(JsTrim(hostID), JsTrim(path));
    KeyParts(JsTrim(hostID'), JsTrim(path'));
  }

  lemma KeyParts(host: string, path: string)
    requires ':' !in host
    ensures var rest := ("project_" + host + "::" + path)[8..];
            && Text.IndexOf(rest, ':') == |host| && |host| + 2 <= |rest|
            && rest[..|host|] == host && rest[|host| + 2..] == path
  {
    var rest := ("project_" + host + "::" + path)[8..];
    assert rest == host + ("::" + path);
    FirstColon(host, "::" + path);
    assert rest[|host|..] == "::" + path && ("::" + path)[2..] == path;
    assert rest[|host|..][2..] == rest[|host| + 2..];
  }

  lemma FirstColon(h: string, r: string)
    requires ':' !in h && r != "" && r[0] == ':'
    ensures Text.IndexOf(h + r, ':') == |h|
  {
    var i := Text.IndexOf(h + r, ':');
    assert (h + r)[|h|] == ':';
  }

  /** The workspace a project continues: the one with its id, or else the last one at its host and path. */
  lemma ExistingIsFound(p: Project, ws: seq<Workspace>)
    ensures var id, existing := JsTrim(p.id), Existing(p, ProjectSync.IndexOf(ws));
            && (id != "" && HasWorkspace(ws, id) ==> existing.Some? && existing.value in ws && existing.value.id == id)
            && (id == "" || !HasWorkspace(ws, id) ==>
                  match existing
                  case Some(w) => w in ws && HostPathID(w.hostID, w.path) == HostPathID(p.hostID, p.path)
                  case None => forall w | w in ws :: HostPathID(w.hostID, w.path) != HostPathID(p.hostID, p.path))
  {
    var i := IndexedByID(ws, JsTrim(p.id));
    var k := IndexedByPlace(ws, HostPathID(p.hostID, p.path));
  }

  /** The workspace of a project: its id is the project's, else the continued one's, else made from host and path;
      its sessions are the listed ones, then those kept; its active thread stays if it is still there. */
  lemma SyncedWorkspaceSays(p: Project, index: Index, opts: Options)
    ensures var w, existing := SyncedWorkspace(p, index, opts), Existing(p, index);
            var listed := Listed(p.sessions, index.threads);
            && w.hostID == JsTrim(p.hostID) && w.path == JsTrim(p.path)
            && w.id == (if JsTrim(p.id) != "" then JsTrim(p.id)
                        else if existing.Some? && existing.value.id != "" then existing.value.id
                        else HostPathID(p.hostID, p.path))
            && w.sessions == (if existing.Some? && opts.missingSessions
                              then listed + Unknown(existing.value.sessions, IDs(listed)) else listed)
            && (existing.Some? && Has(w.sessions, existing.value.activeSessionID) ==>
                  w.activeSessionID == existing.value.activeSessionID)
            && (!(existing.Some? && Has(w.sessions, existing.value.activeSessionID)) ==>
                  w.activeSessionID == if w.sessions == [] then "" else w.sessions[0].id)
  {
    if Existing(p, index).Some? {
      MissingFollow(Listed(p.sessions, index.threads), Existing(p, index).value.sessions);
    }
  }

  // ----- the whole sync -----

  predicate SamePlace(v: Workspace, w: Workspace) {
    JsTrim(v.hostID) == JsTrim(w.hostID) && JsTrim(v.path) == JsTrim(w.path)
  }

  /** The first workspace at the same host and path. */
  predicate IsFirstAt(next: seq<Workspace>, w: Workspace, i: nat) {
    i < |next| && SamePlace(next[i], w) && forall k | 0 <= k < i :: !SamePlace(next[k], w)
  }

  lemma FirstAtRest(next: seq<Workspace>, w: Workspace, i: nat)
    requires next != [] && !SamePlace(next[0], w)
    ensures IsFirstAt(next, w, i) <==> i > 0 && IsFirstAt(next[1..], w, i - 1)
  {
    if i > 0 && IsFirstAt(next[1..], w, i - 1) {
      assert next[i] == next[1..][i - 1];
      assert forall k | 0 < k < i :: next[k] == next[1..][k - 1];
    }
  }

  lemma {:induction false} MatchingIsFirst(next: seq<Workspace>, w: Workspace)
    ensures match Matching(next, w)
            case Some(found) => exists i: nat :: IsFirstAt(next, w, i) && found == next[i]
            case None => forall i: nat :: !IsFirstAt(next, w, i)
    decreases |next|
  {
    if next != [] {
      if SamePlace(next[0], w) {
        assert IsFirstAt(next, w, 0);
      } else {
        MatchingIsFirst(next[1..], w);
        forall i: nat ensures IsFirstAt(next, w, i) <==> i > 0 && IsFirstAt(next[1..], w, i - 1) {
          FirstAtRest(next, w, i);
        }
        if Matching(next[1..], w).Some? {
          var i: nat :| IsFirstAt(next[1..], w, i) && Matching(next[1..], w).value == next[1..][i];
          assert IsFirstAt(next, w, i + 1);
        }
      }
    }
  }

  /** What is active after a sync that leaves workspaces: the same workspace if it is still there, else the first at
      its host and path, else the first of all; and the job thread is the active thread there. */
  lemma SyncActivates(t: Tree, projects: seq<Project>, opts: Options, fallback: Workspace)
    requires NextWorkspaces(t.workspaces, projects, opts) != []
    ensures var next, out := NextWorkspaces(t.workspaces, projects, opts), Sync(t, projects, opts, fallback);
            && out.workspaces == next && out.activeJobThreadID == ActiveThread(out)
            && (HasWorkspace(next, t.activeWorkspaceID) ==> out.activeWorkspaceID == t.activeWorkspaceID)
            && (!HasWorkspace(next, t.activeWorkspaceID) ==>
                  match FindWorkspace(t.workspaces, t.activeWorkspaceID)
                  case Some(previous) =>
                    && (forall i: nat | IsFirstAt(next, previous, i) :: out.activeWorkspaceID == next[i].id)
                    && ((forall i: nat :: !IsFirstAt(next, previous, i)) ==> out.activeWorkspaceID == next[0].id)
                  case None => out.activeWorkspaceID == next[0].id)
  {
    var next, out := NextWorkspaces(t.workspaces, projects, opts), Sync(t, projects, opts, fallback);
    FindIsActive(next, out.activeWorkspaceID);
    NextActiveIsThere(next, t.workspaces, t.activeWorkspaceID);
    if !HasWorkspace(next, t.activeWorkspaceID) {
      match FindWorkspace(t.workspaces, t.activeWorkspaceID)
      case None =>
      case Some(previous) =>
        MatchingIsFirst(next, previous);
        forall i: nat, k: nat | IsFirstAt(next, previous, i) && IsFirstAt(next, previous, k) ensures i == k { }
    }
  }

  lemma {:induction false} FindIsActive(ws: seq<Workspace>, id: string)
    ensures FindWorkspace(ws, id).Some? ==> FindWorkspace(ws, id).value.activeSessionID == ActiveIn(ws, id)
  {
    if ws != [] { FindIsActive(ws[1..], id); }
  }

  /** A sync that leaves no workspace: the tree stays if that is asked for and it has workspaces, and otherwise the
      fallback is all there is. */
  lemma EmptySync(t: Tree, projects: seq<Project>, opts: Options, fallback: Workspace)
    requires NextWorkspaces(t.workspaces, projects, opts) == []
    ensures var out := Sync(t, projects, opts, fallback);
            if opts.onEmptyResult && t.workspaces != [] then out == t
            else out.workspaces == [fallback] && out.activeWorkspaceID == fallback.id
                 && out.activeJobThreadID == ActiveThread(out)
  {
  }

  /** The usable projects' workspaces come first, one each, in the order of the projects; then, if they are kept, the
      unlisted ones unchanged, in their old order. */
  lemma WorkspacesInOrder(projects: seq<Project>, current: seq<Workspace>, opts: Options)
    requires AllApart(current)
    ensures var index := ProjectSync.IndexOf(current);
            NextWorkspaces(current, projects, opts) ==
            WorkspacesOf(projects, index, opts)
            + if opts.missingProjects
              then Unlisted(WorkspacesOf(projects, index, opts), current, Hosts(projects)) else []
  {
    var index := ProjectSync.IndexOf(current);
    SyncedInOrder(projects, index, opts);
    WithMissingProjectsAdds(Synced(projects, index, opts), current, Hosts(projects));
  }

  function WorkspacesOf(projects: seq<Project>, index: Index, opts: Options): seq<Workspace> {
    if projects == [] then []
    else
      WorkspaceOf(projects[0], index, opts) + WorkspacesOf(projects[1..], index, opts)
  }

  /** A usable project's workspace, and nothing for a project without a host or a path. */
  function WorkspaceOf(p: Project, index: Index, opts: Options): seq<Workspace> {
    if JsTrim(p.hostID) != "" && JsTrim(p.path) != "" then [SyncedWorkspace(p, index, opts)] else []
  }

  lemma {:induction false} WorkspacesSnoc(projects: seq<Project>, p: Project, index: Index, opts: Options)
    ensures WorkspacesOf(projects + [p], index, opts) ==
            WorkspacesOf(projects, index, opts) + WorkspaceOf(p, index, opts)
    decreases |projects|
  {
    if projects == [] {
      assert [] + [p] == [p] && [p][1..] == [];
    } else {
      assert (projects + [p])[1..] == projects[1..] + [p];
      WorkspacesSnoc(projects[1..], p, index, opts);
    }
  }

  lemma SyncedSnoc(projects: seq<Project>, p: Project, index: Index, opts: Options)
    ensures Synced(projects + [p], index, opts) == Synced(projects, index, opts) + WorkspaceOf(p, index, opts)
  {
    assert (projects + [p])[..|projects|] == projects;
  }

  lemma {:induction false} SyncedInOrder(projects: seq<Project>, index: Index, opts: Options)
    ensures Synced(projects, index, opts) == WorkspacesOf(projects, index, opts)
    decreases |projects|
  {
    if projects != [] {
      var front, p := projects[..|projects| - 1], projects[|projects| - 1];
      assert projects == front + [p];
      SyncedInOrder(front, index, opts);
      SnocInOrder(front, p, index, opts);
    }
  }

  lemma SnocInOrder(front: seq<Project>, p: Project, index: Index, opts: Options)
    requires Synced(front, index, opts) == WorkspacesOf(front, index, opts)
    ensures Synced(front + [p], index, opts) == WorkspacesOf(front + [p], index, opts)
  {
    SyncedSnoc(front, p, index, opts);
    WorkspacesSnoc(front, p, index, opts);
  }
}
