/** Rebuilding the client's workspace tree from a list of projects, and every run of the tree's operations. */
module ProjectSync {
  import opened Wrappers
  import opened Text
  import opened ThreadTree

  datatype Discovered = Discovered(id: string, title: string)

  datatype Project = Project(id: string, hostID: string, path: string, sessions: seq<Discovered>)

  /** What survives although the projects do not list it. */
  datatype Options = Options(missingSessions: bool, missingProjects: bool, onEmptyResult: bool)

  const FROM_DISCOVERY := Options(true, true, true)

  /** The current tree, looked up by thread id, by workspace id and by host and path. */
  datatype Index = Index(
    threads: map<string, Thread>,
    workspaces: map<string, Workspace>,
    hostPaths: map<string, Workspace>)

  function HostPathID(hostID: string, path: string): string {
    "project_" + JsTrim(hostID) + "::" + JsTrim(path)
  }

  function AddThreads(m: map<string, Thread>, sessions: seq<Thread>): map<string, Thread> {
    if sessions == [] then m
    else
      var last := sessions[|sessions| - 1];
      AddThreads(m, sessions[..|sessions| - 1])[last.id := last]
  }

  function IndexOf(ws: seq<Workspace>): Index {
    if ws == [] then Index(map[], map[], map[])
    else
      var rest, w := IndexOf(ws[..|ws| - 1]), ws[|ws| - 1];
      Index(AddThreads(rest.threads, w.sessions), rest.workspaces[w.id := w],
            rest.hostPaths[HostPathID(w.hostID, w.path) := w])
  }

  method BuildIndex(ws: seq<Workspace>) returns (index: Index)
    ensures index == IndexOf(ws)
  {
    index := Index(map[], map[], map[]);
    for i := 0 to |ws|
      invariant index == IndexOf(ws[..i])
    {
      assert ws[..i + 1][..i] == ws[..i];
      var w := ws[i];
      var threads := index.threads;
      for k := 0 to |w.sessions|
        invariant threads == AddThreads(index.threads, w.sessions[..k])
      {
        assert w.sessions[..k + 1][..k] == w.sessions[..k];
        threads := threads[w.sessions[k].id := w.sessions[k]];
      }
      assert w.sessions[..|w.sessions|] == w.sessions;
      index := Index(threads, index.workspaces[w.id := w], index.hostPaths[HostPathID(w.hostID, w.path) := w]);
    }
    assert ws[..|ws|] == ws;
  }

  function Find<V>(m: map<string, V>, k: string): Option<V> {
    if k in m then Some(m[k]) else None
  }

  // ----- one project -----

  predicate Usable(p: Project) {
    JsTrim(p.hostID) != "" && JsTrim(p.path) != ""
  }

  function Existing(p: Project, index: Index): Option<Workspace> {
    var id := JsTrim(p.id);
    if id != "" && id in index.workspaces then Some(index.workspaces[id])
    else Find(index.hostPaths, HostPathID(p.hostID, p.path))
  }

  function WorkspaceID(p: Project, index: Index): string {
    var existing := Existing(p, index);
    Either(JsTrim(p.id),
           if existing.Some? && existing.value.id != "" then existing.value.id else HostPathID(p.hostID, p.path))
  }

  /** A listed session: its listed title, and everything else as it was. */
  function Refreshed(id: string, title: string, prior: Option<Thread>): Thread {
    match prior
    case None => Thread(id, Either(JsTrim(title), id), "", [], "", [], true, "", Idle, false, false)
    case Some(p) => p.(id := id, title := Either(JsTrim(title), Either(p.title, id)))
  }

  predicate Has(sessions: seq<Thread>, id: string) {
    exists i :: 0 <= i < |sessions| && sessions[i].id == id
  }

  function Listed(ds: seq<Discovered>, threads: map<string, Thread>): seq<Thread> {
    if ds == [] then []
    else
      var rest, d := Listed(ds[..|ds| - 1], threads), ds[|ds| - 1];
      var id := JsTrim(d.id);
      if id == "" || Has(rest, id) then rest else rest + [Refreshed(id, d.title, Find(threads, id))]
  }

  /** Adds the prior sessions whose ids are not there yet. */
  function WithMissing(sessions: seq<Thread>, prior: seq<Thread>): seq<Thread>
    decreases |prior|
  {
    if prior == [] then sessions
    else
      var rest, last := WithMissing(sessions, prior[..|prior| - 1]), prior[|prior| - 1];
      if Has(rest, last.id) then rest else rest + [last]
  }

  method ListSessions(ds: seq<Discovered>, threads: map<string, Thread>)
    returns (sessions: seq<Thread>, seen: set<string>)
    ensures sessions == Listed(ds, threads)
    ensures forall id :: id in seen <==> Has(sessions, id)
  {
    sessions, seen := [], {};
    for i := 0 to |ds|
      invariant sessions == Listed(ds[..i], threads)
      invariant forall id :: id in seen <==> Has(sessions, id)
    {
      assert ds[..i + 1][..i] == ds[..i];
      var sessionID := JsTrim(ds[i].id);
      if sessionID == "" || sessionID in seen {
        continue;
      }
      HasSnoc(sessions, Refreshed(sessionID, ds[i].title, Find(threads, sessionID)));
      seen := seen + {sessionID};
      sessions := sessions + [Refreshed(sessionID, ds[i].title, Find(threads, sessionID))];
    }
    assert ds[..|ds|] == ds;
  }

  lemma HasSnoc(sessions: seq<Thread>, thread: Thread)
    ensures forall id :: Has(sessions + [thread], id) <==> Has(sessions, id) || id == thread.id
  {
    var more := sessions + [thread];
    forall id ensures Has(more, id) <==> Has(sessions, id) || id == thread.id {
      if Has(sessions, id) {
        var i :| 0 <= i < |sessions| && sessions[i].id == id;
        assert more[i].id == id;
      }
      assert more[|sessions|] == thread;
    }
  }

  method KeepMissing(listed: seq<Thread>, known: set<string>, prior: seq<Thread>) returns (sessions: seq<Thread>)
    requires forall id :: id in known <==> Has(listed, id)
    ensures sessions == WithMissing(listed, prior)
  {
    sessions := listed;
    var seen := known;
    for i := 0 to |prior|
      invariant sessions == WithMissing(listed, prior[..i])
      invariant forall id :: id in seen <==> Has(sessions, id)
    {
      assert prior[..i + 1][..i] == prior[..i];
      if prior[i].id in seen {
        continue;
      }
      HasSnoc(sessions, prior[i]);
      sessions := sessions + [prior[i]];
      seen := seen + {prior[i].id};
    }
    assert prior[..|prior|] == prior;
  }

  function SessionsOf(p: Project, index: Index, opts: Options): seq<Thread> {
    var listed, existing := Listed(p.sessions, index.threads), Existing(p, index);
    if existing.Some? && opts.missingSessions then WithMissing(listed, existing.value.sessions) else listed
  }

  function ActiveOf(sessions: seq<Thread>, existing: Option<Workspace>): string {
    if existing.Some? && Has(sessions, existing.value.activeSessionID) then existing.value.activeSessionID
    else if sessions == [] then "" else sessions[0].id
  }

  function SyncedWorkspace(p: Project, index: Index, opts: Options): Workspace {
    var sessions := SessionsOf(p, index, opts);
    Workspace(WorkspaceID(p, index), JsTrim(p.hostID), JsTrim(p.path), sessions, ActiveOf(sessions, Existing(p, index)))
  }

  // ----- all projects -----

  function Synced(projects: seq<Project>, index: Index, opts: Options): seq<Workspace> {
    if projects == [] then []
    else
      var rest, p := Synced(projects[..|projects| - 1], index, opts), projects[|projects| - 1];
      if Usable(p) then rest + [SyncedWorkspace(p, index, opts)] else rest
  }

  function Hosts(projects: seq<Project>): set<string> {
    set i | 0 <= i < |projects| && Usable(projects[i]) :: JsTrim(projects[i].hostID)
  }

  function WithMissingProjects(next: seq<Workspace>, current: seq<Workspace>, hosts: set<string>): seq<Workspace>
    decreases |current|
  {
    if current == [] then next
    else
      var rest, w := WithMissingProjects(next, current[..|current| - 1], hosts), current[|current| - 1];
      var host := JsTrim(w.hostID);
      if HasWorkspace(rest, w.id) || (hosts != {} && host != "" && host !in hosts) then rest else rest + [w]
  }

  function NextWorkspaces(current: seq<Workspace>, projects: seq<Project>, opts: Options): seq<Workspace> {
    var next := Synced(projects, IndexOf(current), opts);
    if opts.missingProjects then WithMissingProjects(next, current, Hosts(projects)) else next
  }

  /** The first workspace at the same host and path. */
  function Matching(next: seq<Workspace>, previous: Workspace): (r: Option<Workspace>)
    ensures r.Some? ==> r.value in next
  {
    if next == [] then None
    else if JsTrim(next[0].hostID) == JsTrim(previous.hostID) && JsTrim(next[0].path) == JsTrim(previous.path) then
      Some(next[0])
    else Matching(next[1..], previous)
  }

  function NextActive(next: seq<Workspace>, current: seq<Workspace>, active: string): string
    requires next != []
  {
    if HasWorkspace(next, active) then active
    else
      match FindWorkspace(current, active)
      case None => next[0].id
      case Some(previous) => (match Matching(next, previous) case None => next[0].id case Some(w) => w.id)
  }

  /** `fallback` is a new workspace with one new session. */
  function Sync(t: Tree, projects: seq<Project>, opts: Options, fallback: Workspace): Tree {
    var next := NextWorkspaces(t.workspaces, projects, opts);
    if next == [] then
      if opts.onEmptyResult && t.workspaces != [] then t else Tree([fallback], fallback.id, fallback.activeSessionID)
    else
      var active := NextActive(next, t.workspaces, t.activeWorkspaceID);
      var project := match FindWorkspace(next, active) case None => next[0] case Some(w) => w;
      Tree(next, active, project.activeSessionID)
  }

  method SyncProject(p: Project, index: Index, opts: Options) returns (w: Workspace)
    ensures w == SyncedWorkspace(p, index, opts)
  {
    var existing := Existing(p, index);
    var sessions, seen := ListSessions(p.sessions, index.threads);
    if existing.Some? && opts.missingSessions {
      sessions := KeepMissing(sessions, seen, existing.value.sessions);
    }
    return Workspace(WorkspaceID(p, index), JsTrim(p.hostID), JsTrim(p.path), sessions, ActiveOf(sessions, existing));
  }

  method SyncAll(projects: seq<Project>, index: Index, opts: Options) returns (next: seq<Workspace>, hosts: set<string>)
    ensures next == Synced(projects, index, opts) && hosts == Hosts(projects)
  {
    next, hosts := [], {};
    for i := 0 to |projects|
      invariant next == Synced(projects[..i], index, opts) && hosts == Hosts(projects[..i])
    {
      assert projects[..i + 1][..i] == projects[..i];
      HostsSnoc(projects[..i], projects[i]);
      assert projects[..i] + [projects[i]] == projects[..i + 1];
      if Usable(projects[i]) {
        hosts := hosts + {JsTrim(projects[i].hostID)};
        var w := SyncProject(projects[i], index, opts);
        next := next + [w];
      }
    }
    assert projects[..|projects|] == projects;
  }

  lemma HostsSnoc(projects: seq<Project>, p: Project)
    ensures Hosts(projects + [p]) == Hosts(projects) + if Usable(p) then {JsTrim(p.hostID)} else {}
  {
    var more := projects + [p];
    assert more[|projects|] == p;
    assert forall i | 0 <= i < |projects| :: more[i] == projects[i];
  }

  method KeepProjects(synced: seq<Workspace>, current: seq<Workspace>, hosts: set<string>)
    returns (next: seq<Workspace>)
    ensures next == WithMissingProjects(synced, current, hosts)
  {
    next := synced;
    for i := 0 to |current|
      invariant next == WithMissingProjects(synced, current[..i], hosts)
    {
      assert current[..i + 1][..i] == current[..i];
      if HasWorkspace(next, current[i].id) {
        continue;
      }
      var host := JsTrim(current[i].hostID);
      if hosts != {} && host != "" && host !in hosts {
        continue;
      }
      next := next + [current[i]];
    }
    assert current[..|current|] == current;
  }

  method SyncProjects(t: Tree, projects: seq<Project>, opts: Options, fallback: Workspace) returns (out: Tree)
    ensures out == Sync(t, projects, opts, fallback)
  {
    var index := BuildIndex(t.workspaces);
    var next, hosts := SyncAll(projects, index, opts);
    if opts.missingProjects {
      next := KeepProjects(next, t.workspaces, hosts);
    }
    if next == [] {
      if opts.onEmptyResult && t.workspaces != [] {
        return t;
      }
      return Tree([fallback], fallback.id, fallback.activeSessionID);
    }
    var active := NextActive(next, t.workspaces, t.activeWorkspaceID);
    var found := FindWorkspace(next, active);
    var project := if found.Some? then found.value else next[0];
    return Tree(next, active, project.activeSessionID);
  }

  // ----- what a sync keeps -----

  lemma HasIDs(sessions: seq<Thread>, id: string)
    ensures Has(sessions, id) <==> id in IDs(sessions)
  {
  }

  function Names(ds: seq<Discovered>): set<string> {
    set i | 0 <= i < |ds| && JsTrim(ds[i].id) != "" :: JsTrim(ds[i].id)
  }

  lemma SnocOk(sessions: seq<Thread>, thread: Thread)
    requires Distinct(sessions) && "" !in IDs(sessions) && thread.id != "" && !Has(sessions, thread.id)
    ensures Distinct(sessions + [thread]) && "" !in IDs(sessions + [thread])
    ensures IDs(sessions + [thread]) == IDs(sessions) + {thread.id}
  {
    var more := sessions + [thread];
    forall id ensures id in IDs(more) <==> id in IDs(sessions) + {thread.id} {
      HasSnoc(sessions, thread);
      HasIDs(more, id);
      HasIDs(sessions, id);
    }
  }

  /** The listed sessions are those with the listed ids, each once. */
  lemma {:induction false} ListedIsOk(ds: seq<Discovered>, threads: map<string, Thread>)
    ensures var out := Listed(ds, threads); Distinct(out) && "" !in IDs(out) && IDs(out) == Names(ds)
  {
    if ds != [] {
      var n := |ds| - 1;
      var rest, id := Listed(ds[..n], threads), JsTrim(ds[n].id);
      ListedIsOk(ds[..n], threads);
      NamesSnoc(ds);
      HasIDs(rest, id);
      if id != "" && !Has(rest, id) { SnocOk(rest, Refreshed(id, ds[n].title, Find(threads, id))); }
    }
  }

  lemma NamesSnoc(ds: seq<Discovered>)
    requires ds != []
    ensures var n := |ds| - 1; Names(ds) == Names(ds[..n]) + if JsTrim(ds[n].id) != "" then {JsTrim(ds[n].id)} else {}
  {
  }

  lemma {:induction false} WithMissingIsOk(sessions: seq<Thread>, prior: seq<Thread>)
    requires Distinct(sessions) && "" !in IDs(sessions) && "" !in IDs(prior)
    ensures var out := WithMissing(sessions, prior); Distinct(out) && "" !in IDs(out)
    decreases |prior|
  {
    if prior != [] {
      var n := |prior| - 1;
      assert prior[n].id in IDs(prior);
      forall id | id in IDs(prior[..n]) ensures id in IDs(prior) {
        var i :| 0 <= i < n && prior[..n][i].id == id;
        assert prior[i].id == id;
      }
      WithMissingIsOk(sessions, prior[..n]);
      var rest := WithMissing(sessions, prior[..n]);
      if !Has(rest, prior[n].id) { SnocOk(rest, prior[n]); }
    }
  }

  lemma ActiveIsOk(sessions: seq<Thread>, existing: Option<Workspace>)
    requires "" !in IDs(sessions)
    ensures var active := ActiveOf(sessions, existing); if sessions == [] then active == "" else active in IDs(sessions)
  {
  }

  lemma ExistingIsThere(p: Project, ws: seq<Workspace>)
    requires Existing(p, IndexOf(ws)).Some?
    ensures Existing(p, IndexOf(ws)).value in ws
  {
  }

  lemma SyncedWorkspaceIsOk(p: Project, ws: seq<Workspace>, opts: Options)
    requires AllOk(ws)
    ensures WorkspaceOk(SyncedWorkspace(p, IndexOf(ws), opts))
  {
    var index := IndexOf(ws);
    var existing := Existing(p, index);
    ListedIsOk(p.sessions, index.threads);
    if existing.Some? {
      ExistingIsThere(p, ws);
      var i :| 0 <= i < |ws| && ws[i] == existing.value;
      assert WorkspaceOk(ws[i]);
      WithMissingIsOk(Listed(p.sessions, index.threads), existing.value.sessions);
    }
    ActiveIsOk(SessionsOf(p, index, opts), existing);
  }

  lemma {:induction false} SyncedIsOk(projects: seq<Project>, ws: seq<Workspace>, opts: Options)
    requires AllOk(ws)
    ensures AllOk(Synced(projects, IndexOf(ws), opts))
  {
    if projects != [] {
      var n := |projects| - 1;
      SyncedIsOk(projects[..n], ws, opts);
      SyncedWorkspaceIsOk(projects[n], ws, opts);
    }
  }

  lemma {:induction false} MissingProjectsAreOk(next: seq<Workspace>, current: seq<Workspace>, hosts: set<string>)
    requires AllOk(next) && AllOk(current)
    ensures AllOk(WithMissingProjects(next, current, hosts))
    decreases |current|
  {
    if current != [] {
      var n := |current| - 1;
      assert WorkspaceOk(current[n]);
      MissingProjectsAreOk(next, current[..n], hosts);
    }
  }

  lemma FirstIsThere(ws: seq<Workspace>)
    requires ws != []
    ensures HasWorkspace(ws, ws[0].id)
  {
  }

  lemma NextActiveIsThere(next: seq<Workspace>, current: seq<Workspace>, active: string)
    requires next != []
    ensures HasWorkspace(next, NextActive(next, current, active))
  {
  }

  /** After a sync with any options each workspace is well formed on its own, and the active one exists. */
  lemma AnySyncKeepsWorkspacesOk(t: Tree, projects: seq<Project>, opts: Options, fallback: Workspace)
    requires AllOk(t.workspaces) && HasWorkspace(t.workspaces, t.activeWorkspaceID) && WorkspaceOk(fallback)
    ensures var out := Sync(t, projects, opts, fallback);
            AllOk(out.workspaces) && HasWorkspace(out.workspaces, out.activeWorkspaceID)
  {
    var next := NextWorkspaces(t.workspaces, projects, opts);
    SyncedIsOk(projects, t.workspaces, opts);
    MissingProjectsAreOk(Synced(projects, IndexOf(t.workspaces), opts), t.workspaces, Hosts(projects));
    if next != [] {
      NextActiveIsThere(next, t.workspaces, t.activeWorkspaceID);
    } else {
      FirstIsThere([fallback]);
    }
  }

  // ----- exactly when threads stay unique -----

  /** The session ids a project ends up with: those it lists, and with unlisted sessions kept those of the
      workspace it is matched with. */
  function Reported(p: Project, index: Index, opts: Options): set<string> {
    var existing := Existing(p, index);
    Names(p.sessions) + if existing.Some? && opts.missingSessions then IDs(existing.value.sessions) else {}
  }

  /** A workspace that no usable project resolves to, kept because its host was reported, or has no name, or
      no host was reported at all. */
  ghost predicate KeptUnlisted(w: Workspace, projects: seq<Project>, index: Index, opts: Options) {
    && opts.missingProjects
    && (forall i | 0 <= i < |projects| && Usable(projects[i]) :: WorkspaceID(projects[i], index) != w.id)
    && (Hosts(projects) == {} || JsTrim(w.hostID) == "" || JsTrim(w.hostID) in Hosts(projects))
  }

  ghost predicate ProjectsApart(p: Project, q: Project, index: Index, opts: Options) {
    Usable(p) && Usable(q) ==>
      WorkspaceID(p, index) != WorkspaceID(q, index) && Reported(p, index, opts) !! Reported(q, index, opts)
  }

  /** No kept unlisted workspace has a session that a project ends up with. */
  ghost predicate UnlistedSeparate(projects: seq<Project>, current: seq<Workspace>, opts: Options) {
    var index := IndexOf(current);
    forall i, k | 0 <= i < |projects| && 0 <= k < |current| ::
      Usable(projects[i]) && KeptUnlisted(current[k], projects, index, opts) ==>
      Reported(projects[i], index, opts) !! IDs(current[k].sessions)
  }

  /** No two usable projects resolve to one workspace id or end up with one session, and none shares a
      session with a kept unlisted workspace. */
  ghost predicate Separate(projects: seq<Project>, current: seq<Workspace>, opts: Options) {
    && (forall i, j | 0 <= i < j < |projects| :: ProjectsApart(projects[i], projects[j], IndexOf(current), opts))
    && UnlistedSeparate(projects, current, opts)
  }

  lemma {:induction false} WithMissingIDs(sessions: seq<Thread>, prior: seq<Thread>)
    ensures IDs(WithMissing(sessions, prior)) == IDs(sessions) + IDs(prior)
    decreases |prior|
  {
    if prior == [] {
      assert IDs(prior) == {};
    } else {
      var n := |prior| - 1;
      var rest := WithMissing(sessions, prior[..n]);
      WithMissingIDs(sessions, prior[..n]);
      SnocIDs(prior[..n], prior[n]);
      SnocIDs(rest, prior[n]);
      HasIDs(rest, prior[n].id);
      assert prior[..n] + [prior[n]] == prior;
    }
  }

  lemma SnocIDs(sessions: seq<Thread>, thread: Thread)
    ensures IDs(sessions + [thread]) == IDs(sessions) + {thread.id}
  {
    forall id ensures id in IDs(sessions + [thread]) <==> id in IDs(sessions) + {thread.id} {
      HasSnoc(sessions, thread);
      HasIDs(sessions + [thread], id);
      HasIDs(sessions, id);
    }
  }

  lemma SyncedReports(p: Project, index: Index, opts: Options)
    ensures IDs(SyncedWorkspace(p, index, opts).sessions) == Reported(p, index, opts)
  {
    ListedIsOk(p.sessions, index.threads);
    if Existing(p, index).Some? {
      WithMissingIDs(Listed(p.sessions, index.threads), Existing(p, index).value.sessions);
    }
  }

  /** Where a usable project's workspace is among the synced ones. */
  function Position(projects: seq<Project>, i: nat, index: Index, opts: Options): nat
    requires i < |projects|
  {
    |Synced(projects[..i], index, opts)|
  }

  lemma {:induction false} SyncedPrefix(projects: seq<Project>, k: nat, index: Index, opts: Options)
    requires k <= |projects|
    ensures Synced(projects[..k], index, opts) <= Synced(projects, index, opts)
    decreases |projects|
  {
    if k < |projects| {
      assert projects[..|projects| - 1][..k] == projects[..k];
      SyncedPrefix(projects[..|projects| - 1], k, index, opts);
    } else {
      assert projects[..k] == projects;
    }
  }

  lemma SyncedAt(projects: seq<Project>, i: nat, index: Index, opts: Options)
    requires i < |projects| && Usable(projects[i])
    ensures var out, a := Synced(projects, index, opts), Position(projects, i, index, opts);
            a < |out| && out[a] == SyncedWorkspace(projects[i], index, opts)
  {
    assert projects[..i + 1][..i] == projects[..i];
    SyncedPrefix(projects, i + 1, index, opts);
  }

  lemma {:induction false} PositionsIncrease(projects: seq<Project>, i: nat, j: nat, index: Index, opts: Options)
    requires i < j < |projects| && Usable(projects[i])
    ensures Position(projects, i, index, opts) < Position(projects, j, index, opts)
  {
    SyncedAt(projects[..j], i, index, opts);
    assert projects[..j][..i] == projects[..i];
  }

  ghost predicate FromProject(w: Workspace, projects: seq<Project>, i: nat, index: Index, opts: Options) {
    i < |projects| && Usable(projects[i]) && w == SyncedWorkspace(projects[i], index, opts)
  }

  /** Every synced workspace is some project's, and comes before those of later projects. */
  lemma {:induction false} SyncedFrom(projects: seq<Project>, a: nat, index: Index, opts: Options) returns (i: nat)
    requires a < |Synced(projects, index, opts)|
    ensures FromProject(Synced(projects, index, opts)[a], projects, i, index, opts)
    ensures Position(projects, i, index, opts) == a
    decreases |projects|
  {
    var n := |projects| - 1;
    var rest := Synced(projects[..n], index, opts);
    if a < |rest| {
      i := SyncedFrom(projects[..n], a, index, opts);
      assert projects[..n][..i] == projects[..i];
    } else {
      i := n;
    }
  }

  lemma SyncedOneApart(projects: seq<Project>, i: nat, j: nat, index: Index, opts: Options)
    requires i < j < |projects| && Usable(projects[i]) && Usable(projects[j])
    ensures ProjectsApart(projects[i], projects[j], index, opts) <==>
            Apart(SyncedWorkspace(projects[i], index, opts), SyncedWorkspace(projects[j], index, opts))
  {
    SyncedReports(projects[i], index, opts);
    SyncedReports(projects[j], index, opts);
  }

  /** The synced workspaces are apart exactly when the projects are. */
  lemma SyncedApartExactlyWhen(projects: seq<Project>, index: Index, opts: Options)
    ensures AllApart(Synced(projects, index, opts)) <==>
            forall i, j | 0 <= i < j < |projects| :: ProjectsApart(projects[i], projects[j], index, opts)
  {
    var out := Synced(projects, index, opts);
    if AllApart(out) {
      forall i, j | 0 <= i < j < |projects| ensures ProjectsApart(projects[i], projects[j], index, opts) {
        if Usable(projects[i]) && Usable(projects[j]) {
          SyncedAt(projects, i, index, opts);
          SyncedAt(projects, j, index, opts);
          PositionsIncrease(projects, i, j, index, opts);
          SyncedOneApart(projects, i, j, index, opts);
        }
      }
    }
    if forall i, j | 0 <= i < j < |projects| :: ProjectsApart(projects[i], projects[j], index, opts) {
      forall a, b | 0 <= a < b < |out| ensures Apart(out[a], out[b]) {
        var i := SyncedFrom(projects, a, index, opts);
        var j := SyncedFrom(projects, b, index, opts);
        if j <= i {
          if j < i { PositionsIncrease(projects, j, i, index, opts); }
          assert false;
        }
        SyncedOneApart(projects, i, j, index, opts);
      }
    }
  }

  /** The current workspaces that are kept although no synced one has their id. */
  function Unlisted(synced: seq<Workspace>, current: seq<Workspace>, hosts: set<string>): seq<Workspace> {
    if current == [] then []
    else
      var rest, w := Unlisted(synced, current[..|current| - 1], hosts), current[|current| - 1];
      var host := JsTrim(w.hostID);
      if HasWorkspace(synced, w.id) || (hosts != {} && host != "" && host !in hosts) then rest else rest + [w]
  }

  lemma {:induction false} UnlistedFrom(synced: seq<Workspace>, current: seq<Workspace>, hosts: set<string>, b: nat)
    returns (k: nat)
    requires b < |Unlisted(synced, current, hosts)|
    ensures k < |current| && Unlisted(synced, current, hosts)[b] == current[k]
    ensures b == |Unlisted(synced, current[..k], hosts)|
    ensures !HasWorkspace(synced, current[k].id)
    ensures hosts == {} || JsTrim(current[k].hostID) == "" || JsTrim(current[k].hostID) in hosts
    decreases |current|
  {
    var n := |current| - 1;
    if b < |Unlisted(synced, current[..n], hosts)| {
      k := UnlistedFrom(synced, current[..n], hosts, b);
      assert current[..n][..k] == current[..k];
    } else {
      k := n;
    }
  }

  lemma {:induction false} UnlistedGrows(synced: seq<Workspace>, current: seq<Workspace>, hosts: set<string>, k: nat)
    requires k <= |current|
    ensures |Unlisted(synced, current[..k], hosts)| <= |Unlisted(synced, current, hosts)|
    decreases |current|
  {
    if k < |current| {
      assert current[..|current| - 1][..k] == current[..k];
      UnlistedGrows(synced, current[..|current| - 1], hosts, k);
    } else {
      assert current[..k] == current;
    }
  }

  lemma UnlistedIsApart(synced: seq<Workspace>, current: seq<Workspace>, hosts: set<string>)
    requires AllApart(current)
    ensures AllApart(Unlisted(synced, current, hosts))
  {
    var out := Unlisted(synced, current, hosts);
    forall a, b | 0 <= a < b < |out| ensures Apart(out[a], out[b]) {
      var i := UnlistedFrom(synced, current, hosts, a);
      var j := UnlistedFrom(synced, current, hosts, b);
      if j <= i {
        assert current[..i][..j] == current[..j];
        UnlistedGrows(synced, current[..i], hosts, j);
        assert false;
      }
    }
  }

  lemma {:induction false} UnlistedAt(synced: seq<Workspace>, current: seq<Workspace>, hosts: set<string>, k: nat)
    requires k < |current| && !HasWorkspace(synced, current[k].id)
    requires hosts == {} || JsTrim(current[k].hostID) == "" || JsTrim(current[k].hostID) in hosts
    ensures current[k] in Unlisted(synced, current, hosts)
    decreases |current|
  {
    var n := |current| - 1;
    if k < n {
      UnlistedAt(synced, current[..n], hosts, k);
    }
  }

  lemma UnlistedIDs(synced: seq<Workspace>, current: seq<Workspace>, hosts: set<string>, id: string)
    ensures HasWorkspace(Unlisted(synced, current, hosts), id) ==> HasWorkspace(current, id)
  {
    var out := Unlisted(synced, current, hosts);
    if b :| 0 <= b < |out| && out[b].id == id {
      var k := UnlistedFrom(synced, current, hosts, b);
      assert current[k].id == id;
    }
  }

  lemma NotAmongEarlier(ws: seq<Workspace>)
    requires AllApart(ws) && ws != []
    ensures !HasWorkspace(ws[..|ws| - 1], ws[|ws| - 1].id)
  {
    var n := |ws| - 1;
    forall k | 0 <= k < n ensures ws[..n][k].id != ws[n].id { assert Apart(ws[k], ws[n]); }
  }

  lemma HasConcat(a: seq<Workspace>, b: seq<Workspace>, id: string)
    ensures HasWorkspace(a + b, id) <==> HasWorkspace(a, id) || HasWorkspace(b, id)
  {
    if HasWorkspace(a, id) {
      var i :| 0 <= i < |a| && a[i].id == id;
      assert (a + b)[i].id == id;
    }
    if HasWorkspace(b, id) {
      var i :| 0 <= i < |b| && b[i].id == id;
      assert (a + b)[|a| + i].id == id;
    }
  }

  /** Keeping the unlisted projects one by one adds just these workspaces. */
  lemma {:induction false} WithMissingProjectsAdds(synced: seq<Workspace>, current: seq<Workspace>, hosts: set<string>)
    requires AllApart(current)
    ensures WithMissingProjects(synced, current, hosts) == synced + Unlisted(synced, current, hosts)
    decreases |current|
  {
    if current == [] {
      assert synced + [] == synced;
    } else {
      var n := |current| - 1;
      var w, kept := current[n], Unlisted(synced, current[..n], hosts);
      WithMissingProjectsAdds(synced, current[..n], hosts);
      HasConcat(synced, kept, w.id);
      UnlistedIDs(synced, current[..n], hosts, w.id);
      NotAmongEarlier(current);
      assert synced + kept + [w] == synced + (kept + [w]);
    }
  }

  ghost predicate CrossApart(a: seq<Workspace>, b: seq<Workspace>) {
    forall i, j | 0 <= i < |a| && 0 <= j < |b| :: Apart(a[i], b[j])
  }

  lemma ApartConcat(a: seq<Workspace>, b: seq<Workspace>)
    ensures AllApart(a + b) <==> AllApart(a) && AllApart(b) && CrossApart(a, b)
  {
    var all := a + b;
    if AllApart(all) {
      forall i, j | 0 <= i < j < |a| ensures Apart(a[i], a[j]) { assert Apart(all[i], all[j]); }
      forall i, j | 0 <= i < j < |b| ensures Apart(b[i], b[j]) { assert Apart(all[|a| + i], all[|a| + j]); }
      forall i, j | 0 <= i < |a| && 0 <= j < |b| ensures Apart(a[i], b[j]) { assert Apart(all[i], all[|a| + j]); }
    }
    if AllApart(a) && AllApart(b) && CrossApart(a, b) {
      forall i, j | 0 <= i < j < |all| ensures Apart(all[i], all[j]) {
        if j < |a| {
          assert Apart(a[i], a[j]);
        } else if i < |a| {
          assert Apart(a[i], b[j - |a|]);
        } else {
          assert Apart(b[i - |a|], b[j - |a|]);
        }
      }
    }
  }

  /** A workspace has a synced one's id exactly when some usable project resolves to it. */
  lemma SyncedHas(projects: seq<Project>, index: Index, opts: Options, id: string)
    ensures HasWorkspace(Synced(projects, index, opts), id) <==>
            exists i :: 0 <= i < |projects| && Usable(projects[i]) && WorkspaceID(projects[i], index) == id
  {
    var out := Synced(projects, index, opts);
    if HasWorkspace(out, id) {
      var a :| 0 <= a < |out| && out[a].id == id;
      var i := SyncedFrom(projects, a, index, opts);
      assert Usable(projects[i]) && WorkspaceID(projects[i], index) == id;
    }
    if i :| 0 <= i < |projects| && Usable(projects[i]) && WorkspaceID(projects[i], index) == id {
      SyncedAt(projects, i, index, opts);
      assert out[Position(projects, i, index, opts)].id == id;
    }
  }

  /** The kept unlisted workspaces are apart from the synced ones exactly when no project ends up with a
      session of theirs. */
  lemma CrossApartExactlyWhen(projects: seq<Project>, current: seq<Workspace>, opts: Options)
    requires opts.missingProjects
    ensures var synced := Synced(projects, IndexOf(current), opts);
            CrossApart(synced, Unlisted(synced, current, Hosts(projects))) <==>
              UnlistedSeparate(projects, current, opts)
  {
    var index := IndexOf(current);
    var synced := Synced(projects, index, opts);
    var kept := Unlisted(synced, current, Hosts(projects));
    if CrossApart(synced, kept) {
      forall i, k | 0 <= i < |projects| && 0 <= k < |current| && Usable(projects[i])
                    && KeptUnlisted(current[k], projects, index, opts)
        ensures Reported(projects[i], index, opts) !! IDs(current[k].sessions)
      {
        SyncedHas(projects, index, opts, current[k].id);
        UnlistedAt(synced, current, Hosts(projects), k);
        var b :| 0 <= b < |kept| && kept[b] == current[k];
        SyncedAt(projects, i, index, opts);
        SyncedReports(projects[i], index, opts);
        assert Apart(synced[Position(projects, i, index, opts)], kept[b]);
      }
    }
    if UnlistedSeparate(projects, current, opts) {
      forall a, b | 0 <= a < |synced| && 0 <= b < |kept| ensures Apart(synced[a], kept[b]) {
        var i := SyncedFrom(projects, a, index, opts);
        var k := UnlistedFrom(synced, current, Hosts(projects), b);
        SyncedHas(projects, index, opts, current[k].id);
        SyncedReports(projects[i], index, opts);
        assert KeptUnlisted(current[k], projects, index, opts);
        assert synced[a].id == WorkspaceID(projects[i], index);
      }
    }
  }

  lemma NextApartExactlyWhen(projects: seq<Project>, current: seq<Workspace>, opts: Options)
    requires AllApart(current)
    ensures AllApart(NextWorkspaces(current, projects, opts)) <==> Separate(projects, current, opts)
  {
    var synced := Synced(projects, IndexOf(current), opts);
    SyncedApartExactlyWhen(projects, IndexOf(current), opts);
    if opts.missingProjects {
      WithMissingProjectsAdds(synced, current, Hosts(projects));
      UnlistedIsApart(synced, current, Hosts(projects));
      ApartConcat(synced, Unlisted(synced, current, Hosts(projects)));
      CrossApartExactlyWhen(projects, current, opts);
    }
  }

  /** A sync of any projects with any options leaves the tree well formed exactly when the projects are
      separate. */
  lemma SyncIsWellFormedExactlyWhen(t: Tree, projects: seq<Project>, opts: Options, fallback: Workspace)
    requires WellFormed(t) && WorkspaceOk(fallback)
    ensures WellFormed(Sync(t, projects, opts, fallback)) <==> Separate(projects, t.workspaces, opts)
  {
    AnySyncKeepsWorkspacesOk(t, projects, opts, fallback);
    NextApartExactlyWhen(projects, t.workspaces, opts);
    if NextWorkspaces(t.workspaces, projects, opts) == [] {
      assert AllApart(NextWorkspaces(t.workspaces, projects, opts));
    }
  }

  /** For a sync that keeps nothing unlisted, separate means what the projects list. */
  lemma ServerSyncIsWellFormedExactlyWhen(t: Tree, projects: seq<Project>, opts: Options, fallback: Workspace)
    requires WellFormed(t) && WorkspaceOk(fallback) && !opts.missingSessions && !opts.missingProjects
    ensures WellFormed(Sync(t, projects, opts, fallback)) <==>
            forall i, j | 0 <= i < j < |projects| && Usable(projects[i]) && Usable(projects[j]) ::
              && WorkspaceID(projects[i], IndexOf(t.workspaces)) != WorkspaceID(projects[j], IndexOf(t.workspaces))
              && Names(projects[i].sessions) !! Names(projects[j].sessions)
  {
    SyncIsWellFormedExactlyWhen(t, projects, opts, fallback);
    forall i | 0 <= i < |projects|
      ensures Reported(projects[i], IndexOf(t.workspaces), opts) == Names(projects[i].sessions)
    {
    }
  }

  /** A discovery that lists a known session under another workspace of the same host: the old workspace is
      kept as unlisted, with the session still in it. */
  lemma DiscoveryMovesNothing(fallback: Workspace) returns (t: Tree, projects: seq<Project>)
    requires WorkspaceOk(fallback)
    ensures t == Tree([Workspace("a", "h", "/a", [NewSession("t", "t")], "t")], "a", "t")
    ensures projects == [Project("b", "h", "/b", [Discovered("t", "t")])]
    ensures WellFormed(t) && !WellFormed(Sync(t, projects, FROM_DISCOVERY, fallback))
  {
    t := Tree([Workspace("a", "h", "/a", [NewSession("t", "t")], "t")], "a", "t");
    var p := Project("b", "h", "/b", [Discovered("t", "t")]);
    projects := [p];
    OneThreadTree(t, "a", "h", "/a", "t");
    assert p.sessions[0].id == "t" && "t" in Names(p.sessions);
    DuplicatesWhenKept(t, p, "t", fallback);
  }

  /** A discovery that lists nothing at all, for a project with a new id at the path of a known workspace: the
      workspace's sessions are kept under the new id, and the workspace itself as unlisted. */
  lemma DiscoveryCopiesAll(fallback: Workspace) returns (t: Tree, projects: seq<Project>)
    requires WorkspaceOk(fallback)
    ensures t == Tree([Workspace("old", "h", "p", [NewSession("a", "a")], "a")], "old", "a")
    ensures projects == [Project("new", "h", "p", [])]
    ensures WellFormed(t) && !WellFormed(Sync(t, projects, FROM_DISCOVERY, fallback))
  {
    t := Tree([Workspace("old", "h", "p", [NewSession("a", "a")], "a")], "old", "a");
    var p := Project("new", "h", "p", []);
    projects := [p];
    OneThreadTree(t, "old", "h", "p", "a");
    OneWorkspaceIndex(t.workspaces[0]);
    assert Existing(p, IndexOf(t.workspaces)) == Some(t.workspaces[0]);
    DuplicatesWhenKept(t, p, "a", fallback);
  }

  lemma OneThreadTree(t: Tree, id: string, hostID: string, path: string, threadID: string)
    requires t == Tree([Workspace(id, hostID, path, [NewSession(threadID, threadID)], threadID)], id, threadID)
    requires threadID != ""
    ensures WellFormed(t) && IDs(t.workspaces[0].sessions) == {threadID}
  {
    var w := t.workspaces[0];
    assert w.sessions[0].id in IDs(w.sessions);
    FirstIsThere([w]);
  }

  lemma OneWorkspaceIndex(w: Workspace)
    ensures IndexOf([w]).workspaces == map[w.id := w]
    ensures IndexOf([w]).hostPaths == map[HostPathID(w.hostID, w.path) := w]
  {
    assert [w][..0] == [];
  }

  /** One reported project on the host of the only workspace, under another id, with a session of it. */
  lemma DuplicatesWhenKept(t: Tree, p: Project, id: string, fallback: Workspace)
    requires WellFormed(t) && WorkspaceOk(fallback) && |t.workspaces| == 1 && id in IDs(t.workspaces[0].sessions)
    requires Usable(p) && JsTrim(p.id) != "" && JsTrim(p.id) != t.workspaces[0].id
    requires JsTrim(p.hostID) == JsTrim(t.workspaces[0].hostID)
    requires id in Reported(p, IndexOf(t.workspaces), FROM_DISCOVERY)
    ensures !WellFormed(Sync(t, [p], FROM_DISCOVERY, fallback))
  {
    var w, index := t.workspaces[0], IndexOf(t.workspaces);
    HostsSnoc([], p);
    assert [] + [p] == [p];
    assert KeptUnlisted(w, [p], index, FROM_DISCOVERY);
    assert Usable([p][0]) && KeptUnlisted(t.workspaces[0], [p], index, FROM_DISCOVERY);
    SyncIsWellFormedExactlyWhen(t, [p], FROM_DISCOVERY, fallback);
  }

  // ----- what a sync remembers -----

  lemma SnocThreads(front: seq<Thread>, last: Thread)
    ensures Threads(front + [last]) == Threads(front) + {last}
  {
    var all := front + [last];
    forall k | 0 <= k < |front| ensures front[k] in Threads(all) { assert all[k] == front[k]; }
    assert all[|front|] == last && last in Threads(all);
  }

  lemma {:induction false} AddThreadsFinds(m: map<string, Thread>, sessions: seq<Thread>, id: string)
    requires Distinct(sessions)
    ensures id in IDs(sessions) ==> id in AddThreads(m, sessions) && AddThreads(m, sessions)[id] in Threads(sessions)
                                    && AddThreads(m, sessions)[id].id == id
    ensures id !in IDs(sessions) ==> Find(AddThreads(m, sessions), id) == Find(m, id)
  {
    if sessions != [] {
      var n := |sessions| - 1;
      AddThreadsFinds(m, sessions[..n], id);
      SnocIDs(sessions[..n], sessions[n]);
      SnocThreads(sessions[..n], sessions[n]);
      assert sessions[..n] + [sessions[n]] == sessions;
    }
  }

  /** In a well-formed tree the index finds every thread. */
  lemma {:induction false} IndexFindsThreads(ws: seq<Workspace>, thread: Thread)
    requires AllOk(ws) && AllApart(ws) && thread in AllThreads(ws)
    ensures Find(IndexOf(ws).threads, thread.id) == Some(thread)
    decreases |ws|
  {
    var n := |ws| - 1;
    var i :| 0 <= i < |ws| && thread in Threads(ws[i].sessions);
    assert WorkspaceOk(ws[n]) && thread.id in IDs(ws[i].sessions);
    AddThreadsFinds(IndexOf(ws[..n]).threads, ws[n].sessions, thread.id);
    if i < n {
      assert Apart(ws[i], ws[n]);
      assert ws[..n][i] == ws[i] && thread in AllThreads(ws[..n]);
      IndexFindsThreads(ws[..n], thread);
    } else {
      SameIDSameThread(ws[n].sessions, thread, IndexOf(ws).threads[thread.id]);
    }
  }

  lemma SameIDSameThread(sessions: seq<Thread>, a: Thread, b: Thread)
    requires Distinct(sessions) && a in Threads(sessions) && b in Threads(sessions) && a.id == b.id
    ensures a == b
  {
  }

  /** A listed session that was known keeps everything but its title. */
  lemma {:induction false} ListedRemembers(ds: seq<Discovered>, threads: map<string, Thread>, k: nat)
    requires k < |Listed(ds, threads)| && Listed(ds, threads)[k].id in threads
    ensures var out := Listed(ds, threads)[k]; out == threads[out.id].(id := out.id, title := out.title)
  {
    var n := |ds| - 1;
    if k < |Listed(ds[..n], threads)| {
      ListedRemembers(ds[..n], threads, k);
    }
  }

  /** A thread that is still listed anywhere after a server sync keeps its timeline, its draft and its
      settings. */
  lemma ServerSyncRemembers(t: Tree, projects: seq<Project>, opts: Options, fallback: Workspace, thread: Thread,
        now: Thread)
    requires WellFormed(t) && !opts.missingSessions && !opts.missingProjects
    requires thread in AllThreads(t.workspaces) && thread.id == now.id
    requires NextWorkspaces(t.workspaces, projects, opts) != []
    requires now in AllThreads(Sync(t, projects, opts, fallback).workspaces)
    ensures now == thread.(title := now.title)
  {
    var index := IndexOf(t.workspaces);
    var next := Synced(projects, index, opts);
    var a :| 0 <= a < |next| && now in Threads(next[a].sessions);
    var i := SyncedFrom(projects, a, index, opts);
    var k :| 0 <= k < |next[a].sessions| && next[a].sessions[k] == now;
    IndexFindsThreads(t.workspaces, thread);
    ListedRemembers(projects[i].sessions, index.threads, k);
  }

  // ----- every run of the tree -----

  datatype Op =
    | Create(id: string, title: string)
    | Fork(threadID: string, id: string, title: string)
    | Remove(threadID: string)
    | Activate(threadID: string)
    | BindTo(currentID: string, remoteID: string, title: string)
    | SyncFrom(projects: seq<Project>, opts: Options, fallback: Workspace)

  /** New local ids are fresh, and the projects of a sync are separate. */
  ghost predicate Allowed(t: Tree, op: Op) {
    match op
    case Create(id, _) => Fresh(t, id)
    case Fork(_, id, _) => Fresh(t, id)
    case SyncFrom(projects, opts, fallback) =>
      Separate(projects, t.workspaces, opts) && WorkspaceOk(fallback)
    case _ => true
  }

  function Apply(t: Tree, op: Op): Tree {
    match op
    case Create(id, title) => CreateThread(t, id, title)
    case Fork(threadID, id, title) => ForkThread(t, threadID, id, title)
    case Remove(threadID) => RemoveThread(t, threadID)
    case Activate(threadID) => ActivateThread(t, threadID)
    case BindTo(currentID, remoteID, title) => BindThreadID(t, currentID, remoteID, title).0
    case SyncFrom(projects, opts, fallback) => Sync(t, projects, opts, fallback)
  }

  function Run(t: Tree, ops: seq<Op>): Tree {
    if ops == [] then t else Apply(Run(t, ops[..|ops| - 1]), ops[|ops| - 1])
  }

  ghost predicate AllowedRun(t: Tree, ops: seq<Op>) {
    ops != [] ==> AllowedRun(t, ops[..|ops| - 1]) && Allowed(Run(t, ops[..|ops| - 1]), ops[|ops| - 1])
  }

  /** The tree a client starts with when it has stored none. */
  lemma DefaultIsWellFormed(id: string, sessionID: string)
    requires sessionID != ""
    ensures WellFormed(Tree([Workspace(id, "local", "/", [NewSession(sessionID, "Session 1")], sessionID)],
                            id, sessionID))
  {
    var w := Workspace(id, "local", "/", [NewSession(sessionID, "Session 1")], sessionID);
    assert w.sessions[0].id in IDs(w.sessions);
    FirstIsThere([w]);
  }

  lemma ApplyKeeps(t: Tree, op: Op)
    requires WellFormed(t) && Allowed(t, op)
    ensures WellFormed(Apply(t, op))
  {
    match op
    case Create(id, title) => CreateKeeps(t, id, title);
    case Fork(threadID, id, title) => ForkKeeps(t, threadID, id, title);
    case Remove(threadID) => RemoveKeeps(t, threadID);
    case Activate(threadID) => ActivateKeeps(t, threadID);
    case BindTo(currentID, remoteID, title) => BindKeeps(t, currentID, remoteID, title);
    case SyncFrom(projects, opts, fallback) => SyncIsWellFormedExactlyWhen(t, projects, opts, fallback);
  }

  /** Whatever the run, thread ids stay unique over the whole tree, the active thread of each workspace is
      one of its threads (or none when it has none), and the active workspace exists. */
  lemma {:induction false} EveryRunIsWellFormed(t: Tree, ops: seq<Op>)
    requires WellFormed(t) && AllowedRun(t, ops)
    ensures WellFormed(Run(t, ops))
    decreases |ops|
  {
    if ops != [] {
      EveryRunIsWellFormed(t, ops[..|ops| - 1]);
      ApplyKeeps(Run(t, ops[..|ops| - 1]), ops[|ops| - 1]);
    }
  }
}
