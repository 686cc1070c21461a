/** The git client object: the commands that snapshot a project and push it,
    and the mirror kept for projects that are not git repositories.  The
    object's own state is its push-retry counters; it also carries the
    hosted repositories it pushes to, whether git is installed, and, for
    each push attempt in turn, whether the connection holds. */
module GitClient {
  import opened Common
  import opened World
  import GitText
  import Manifest

  const NoCommitsMessage :=
    "No commits found in repository.  You must do an initial commit "
    + "to initialize the repository."
  const SnapshotMessage := "mortar development snapshot commit"
  const SetupMessage := "Setting up embedded Mortar project"
  const NotARepository := "fatal: not a git repository (or any of the parent directories): .git"
  const MaxPushAttempts := 10
  const MortarRemote := "mortar"
  const GitKeep := ".gitkeep"
  const ProjectRemoteFile := ".mortar-project-remote"

  function SnapshotBranch(uuid: string): string {
    "mortar-snapshot-" + uuid
  }

  function GiveUpMessage(attempts: nat): string {
    "Could not connect to github remote. Tried " + NatToString(attempts) + " times."
  }

  // ---------------------------------------------------------------------
  // Retry arithmetic
  // ---------------------------------------------------------------------

  function Fib(n: nat): nat {
    if n < 2 then n else Fib(n - 1) + Fib(n - 2)
  }

  /** The sleeps of the first n retries: Fib(1), ..., Fib(n). */
  function FibTrace(n: nat): (t: seq<nat>)
    ensures |t| == n
  {
    if n == 0 then [] else FibTrace(n - 1) + [Fib(n)]
  }

  /** A push that never gets through sleeps 1, 1, 2, 3, 5, 8, 13, 21, 34, 55. */
  lemma TenSleeps()
    ensures FibTrace(MaxPushAttempts) == [1, 1, 2, 3, 5, 8, 13, 21, 34, 55]
  {
    assert Fib(2) == 1 && Fib(3) == 2 && Fib(4) == 3 && Fib(5) == 5 && Fib(6) == 8;
    assert Fib(7) == 13 && Fib(8) == 21 && Fib(9) == 34 && Fib(10) == 55;
  }

  /** How many failed attempts a push with `n` earlier failures on the same
      object can make before it gives up: the counter is never reset, so once
      it has reached ten each push gets a single attempt. */
  function Budget(n: nat): (b: nat)
    ensures b >= 1
    ensures n + b >= MaxPushAttempts && (n + b - 1 < MaxPushAttempts || b == 1)
  {
    if n < MaxPushAttempts then MaxPushAttempts - n else 1
  }

  /** The first of the next `budget` attempts whose connection holds. */
  function FirstUp(net: seq<bool>, budget: nat): (r: Option<nat>)
    ensures r.Some? ==> r.value < budget && r.value < |net| && net[r.value]
    ensures r.Some? ==> forall j :: 0 <= j < r.value ==> !net[j]
    ensures r.None? ==> forall j :: 0 <= j < budget && j < |net| ==> !net[j]
  {
    if budget == 0 || |net| == 0 then None
    else if net[0] then Some(0)
    else
      match FirstUp(net[1..], budget - 1)
      case None =>
        assert forall j :: 1 <= j < budget && j < |net| ==> net[j] == net[1..][j - 1];
        None
      case Some(k) =>
        assert forall j :: 1 <= j < k + 1 ==> net[j] == net[1..][j - 1];
        Some(k + 1)
  }

  lemma FirstUpAt(net: seq<bool>, budget: nat, k: nat)
    requires k < budget && k < |net| && net[k] && forall j :: 0 <= j < k ==> !net[j]
    ensures FirstUp(net, budget) == Some(k)
  {
  }

  /** One more attempt that fails leaves no success among the attempts. */
  lemma FirstUpNext(net: seq<bool>, k: nat)
    requires FirstUp(net, k) == None && !(k < |net| && net[k])
    ensures FirstUp(net, k + 1) == None
  {
    assert forall j :: 0 <= j < k + 1 && j < |net| ==> !net[j] by {
      forall j | 0 <= j < k + 1 && j < |net|
        ensures !net[j]
      {
        if j < k {
          assert !net[j];
        }
      }
    }
  }

  /** The first attempt that gets through, within the budget. */
  lemma FirstUpFound(net: seq<bool>, k: nat, budget: nat)
    requires FirstUp(net, k) == None && k < |net| && net[k] && k < budget
    ensures FirstUp(net, budget) == Some(k)
  {
    FirstUpAt(net, budget, k);
  }

  /** A push whose whole budget fails gives up. */
  lemma GiveUp(can: bool, net: seq<bool>, n: nat)
    requires can ==> FirstUp(net, Budget(n)) == None
    ensures Outcome(can, net, n) == None
    ensures Failures(None, n) == Budget(n) && Used(None, n) == Budget(n)
  {
  }

  /** A push gets through at the first attempt whose connection holds. */
  lemma GetThrough(net: seq<bool>, n: nat, k: nat)
    requires FirstUp(net, k) == None && k < |net| && net[k] && k < Budget(n)
    ensures Outcome(true, net, n) == Some(k)
    ensures Failures(Some(k), n) == k && Used(Some(k), n) == k + 1
  {
    FirstUpFound(net, k, Budget(n));
  }

  /** The oracle after `k` attempts have used it. */
  function Drop(net: seq<bool>, k: nat): seq<bool> {
    if k <= |net| then net[k..] else []
  }

  /** Which attempt of a push gets through, if any: none when the push
      cannot succeed at all. */
  function Outcome(can: bool, net: seq<bool>, n: nat): Option<nat> {
    if can then FirstUp(net, Budget(n)) else None
  }

  /** The failed attempts of a push. */
  function Failures(up: Option<nat>, n: nat): nat {
    if up.Some? then up.value else Budget(n)
  }

  /** The attempts of a push, the last one included. */
  function Used(up: Option<nat>, n: nat): nat {
    if up.Some? then up.value + 1 else Budget(n)
  }

  lemma DropStep(net: seq<bool>, k: nat)
    ensures Drop(Drop(net, k), 1) == Drop(net, k + 1)
    ensures (|Drop(net, k)| > 0 && Drop(net, k)[0]) <==> (k < |net| && net[k])
  {
    if k < |net| {
      assert net[k..][1..] == net[k + 1..];
    }
  }

  // ---------------------------------------------------------------------
  // Pushing
  // ---------------------------------------------------------------------

  /** `git push remote branch` can succeed when the connection holds: git is
      installed, the directory is a repository, the remote is configured and
      hosted, and the branch exists. */
  predicate CanPush(installed: bool, servers: Servers, ws: Workspace, remote: string, branch: string) {
    installed && ws.git.GitRepo?
    && HasKey(ws.git.repo.remotes, remote)
    && Lookup(ws.git.repo.remotes, remote).value in servers
    && HasKey(ws.git.repo.branches, branch)
  }

  /** The tip a push sends. */
  function PushedTip(ws: Workspace, branch: string): Commit
    requires ws.git.GitRepo? && HasKey(ws.git.repo.branches, branch)
  {
    Lookup(ws.git.repo.branches, branch).value
  }

  /** The hosted repositories after a push: the branch points at the tip. */
  function PushedServers(servers: Servers, ws: Workspace, remote: string, branch: string): Servers
    requires CanPush(true, servers, ws, remote, branch)
  {
    var url := Lookup(ws.git.repo.remotes, remote).value;
    servers[url := Put(servers[url], branch, PushedTip(ws, branch))]
  }

  /** The pushing directory after a push: its remote-tracking branch follows. */
  function PushedWorkspace(ws: Workspace, remote: string, branch: string): Workspace
    requires ws.git.GitRepo? && HasKey(ws.git.repo.branches, branch)
  {
    var r := ws.git.repo;
    ws.(git := GitRepo(r.(tracking := Put(r.tracking, remote + "/" + branch, PushedTip(ws, branch)))))
  }

  /** After a push the hosted branch is the pushed tip, and every other
      branch and every other hosted repository is as it was. */
  lemma PushedLookup(servers: Servers, ws: Workspace, remote: string, branch: string, url: string, b: string)
    requires CanPush(true, servers, ws, remote, branch) && url in servers
    ensures var url0 := Lookup(ws.git.repo.remotes, remote).value;
      url in PushedServers(servers, ws, remote, branch)
      && Lookup(PushedServers(servers, ws, remote, branch)[url], b)
         == if url == url0 && b == branch then Some(PushedTip(ws, branch)) else Lookup(servers[url], b)
  {
    var url0 := Lookup(ws.git.repo.remotes, remote).value;
    if url == url0 {
      if b == branch {
        PutLookupSame(servers[url0], branch, PushedTip(ws, branch));
      } else {
        PutLookupOther(servers[url0], branch, PushedTip(ws, branch), b);
      }
    }
  }

  /** Pushing the base branch and then the snapshot branch to the same
      remote leaves both hosted branches at the local tips. */
  lemma PushPairServers(s0: Servers, m: Workspace, branch: string, snap: string)
    requires CanPush(true, s0, m, MortarRemote, branch)
    requires CanPush(true, PushedServers(s0, m, MortarRemote, branch), PushedWorkspace(m, MortarRemote, branch),
                     MortarRemote, snap)
    ensures var url := Lookup(m.git.repo.remotes, MortarRemote).value;
      var s2 := PushedServers(PushedServers(s0, m, MortarRemote, branch), PushedWorkspace(m, MortarRemote, branch),
                              MortarRemote, snap);
      url in s2
      && Lookup(s2[url], snap) == Lookup(m.git.repo.branches, snap)
      && Lookup(s2[url], branch) == Lookup(m.git.repo.branches, branch)
  {
    var url := Lookup(m.git.repo.remotes, MortarRemote).value;
    var s1 := PushedServers(s0, m, MortarRemote, branch);
    var m1 := PushedWorkspace(m, MortarRemote, branch);
    PushedLookup(s1, m1, MortarRemote, snap, url, snap);
    PushedLookup(s1, m1, MortarRemote, snap, url, branch);
    PushedLookup(s0, m, MortarRemote, branch, url, branch);
  }

  lemma AppendTwo<T>(a: seq<T>, x: T, y: T)
    ensures (a + [x]) + [y] == a + [x, y]
  {
  }

  /** An entry of the push log: remote and branch. */
  datatype Push = Push(remote: string, branch: string)

  class Git {
    var installed: bool
    var servers: Servers
    var network: seq<bool>
    var lastSleep: nat
    var sleepTime: nat
    var attempts: nat
    var sleeps: seq<nat>
    var pushed: seq<Push>

    /** The retry counters are a Fibonacci pair indexed by the number of
        failed attempts, and the recorded sleeps are that sequence. */
    predicate Valid()
      reads this
    {
      lastSleep == Fib(attempts) && sleepTime == Fib(attempts + 1) && sleeps == FibTrace(attempts)
    }

    /** A new client: the counters start as `||=` leaves them, at 0, 1 and 0. */
    constructor (installed: bool, servers: Servers, network: seq<bool>)
      ensures Valid() && attempts == 0 && sleeps == [] && pushed == []
      ensures this.installed == installed && this.servers == servers && this.network == network
    {
      this.installed := installed;
      this.servers := servers;
      this.network := network;
      lastSleep := 0;
      sleepTime := 1;
      attempts := 0;
      sleeps := [];
      pushed := [];
    }

    /** retry_snapshot_push?: sleep, step the Fibonacci pair, count the
        attempt, and allow another try while fewer than ten have failed. */
    method RetrySnapshotPush() returns (again: bool)
      requires Valid()
      modifies this`sleeps, this`lastSleep, this`sleepTime, this`attempts
      ensures Valid()
      ensures attempts == old(attempts) + 1 && sleeps == old(sleeps) + [old(sleepTime)]
      ensures again <==> attempts < MaxPushAttempts
    {
      sleeps := sleeps + [sleepTime];
      lastSleep, sleepTime := sleepTime, lastSleep + sleepTime;
      attempts := attempts + 1;
      again := attempts < MaxPushAttempts;
    }

    /** The retry loop of push_with_retry: attempts until one gets through
        or retry_snapshot_push? says no more.  Every failure, whatever its
        cause, is retried; `can` says whether the push itself would succeed
        over a working connection. */
    method Attempt(can: bool) returns (ok: bool)
      requires Valid()
      modifies this`sleeps, this`lastSleep, this`sleepTime, this`attempts, this`network
      ensures Valid()
      ensures var up := Outcome(can, old(network), old(attempts));
        attempts == old(attempts) + Failures(up, old(attempts))
        && network == Drop(old(network), Used(up, old(attempts)))
        && (ok <==> up.Some?)
      ensures !ok ==> attempts >= MaxPushAttempts
    {
      var n0 := attempts;
      var net0 := network;
      var failures := 0;
      while true
        invariant Valid()
        invariant attempts == n0 + failures && failures < Budget(n0)
        invariant network == Drop(net0, failures)
        invariant can ==> FirstUp(net0, failures) == None
        decreases Budget(n0) - failures
      {
        DropStep(net0, failures);
        var up := |network| > 0 && network[0];
        network := Drop(network, 1);
        if up && can {
          break;
        }
        if can {
          FirstUpNext(net0, failures);
        }
        var again := RetrySnapshotPush();
        failures := failures + 1;
        if !again {
          assert failures == Budget(n0);
          GiveUp(can, net0, n0);
          ok := false;
          return;
        }
      }
      GetThrough(net0, n0, failures);
      ok := true;
    }

    /** push_with_retry: push until an attempt gets through or the retry
        budget is spent; then the hash `git rev-parse` gives for the branch. */
    method PushWithRetry(ws: Workspace, remote: string, branch: string) returns (res: Result<(Workspace, string)>)
      requires Valid()
      modifies this
      ensures Valid() && installed == old(installed)
      ensures var up := Outcome(CanPush(installed, old(servers), ws, remote, branch), old(network), old(attempts));
        attempts == old(attempts) + Failures(up, old(attempts))
        && network == Drop(old(network), Used(up, old(attempts)))
        && (res.Ok? <==> up.Some?)
      ensures res.Ok? ==>
        res.value == (PushedWorkspace(ws, remote, branch), PushedTip(ws, branch).id)
        && servers == PushedServers(old(servers), ws, remote, branch)
        && pushed == old(pushed) + [Push(remote, branch)]
      ensures res.Err? ==>
        res.msg == GiveUpMessage(attempts) && attempts >= MaxPushAttempts
        && servers == old(servers) && pushed == old(pushed)
    {
      var can := CanPush(installed, servers, ws, remote, branch);
      var ok := Attempt(can);
      if !ok {
        res := Err(GiveUpMessage(attempts));
        return;
      }
      servers := PushedServers(servers, ws, remote, branch);
      pushed := pushed + [Push(remote, branch)];
      res := Ok((PushedWorkspace(ws, remote, branch), PushedTip(ws, branch).id));
    }

    /** create_and_push_snapshot_branch: take a snapshot, push its branch to
        the project's remote, and answer the snapshot commit's hash. */
    method CreateAndPushSnapshotBranch(project: Workspace, remote: string, uuid: string, commitId: string)
      returns (res: Result<(Workspace, string)>)
      requires Valid()
      modifies this
      ensures Valid() && installed == old(installed)
      ensures var s := CreateSnapshotBranch(old(installed), project, uuid, commitId);
        s.Err? ==> res == Err(s.msg) && pushed == old(pushed) && servers == old(servers)
                   && attempts == old(attempts) && network == old(network)
      ensures var s := CreateSnapshotBranch(old(installed), project, uuid, commitId);
        s.Ok? ==>
          var up := Outcome(CanPush(old(installed), old(servers), s.value.1, remote, s.value.2), old(network), old(attempts));
          attempts == old(attempts) + Failures(up, old(attempts))
          && network == Drop(old(network), Used(up, old(attempts)))
          && (res.Ok? <==> up.Some?)
          && (res.Err? ==> res.msg == GiveUpMessage(attempts) && servers == old(servers) && pushed == old(pushed))
      ensures var s := CreateSnapshotBranch(old(installed), project, uuid, commitId);
        res.Ok? ==>
          s.Ok? && res.value.0 == s.value.0
          && pushed == old(pushed) + [Push(remote, s.value.2)]
          && var r := s.value.1.git.repo;
          HeadCommit(r).Some? && res.value.1 == HeadCommit(r).value.id
          && HasKey(r.remotes, remote) && Lookup(r.remotes, remote).value in servers
          && Lookup(servers[Lookup(r.remotes, remote).value], s.value.2) == HeadCommit(r)
    {
      var s := CreateSnapshotBranch(installed, project, uuid, commitId);
      if s.Err? {
        return Err(s.msg);
      }
      var p := PushWithRetry(s.value.1, remote, s.value.2);
      if p.Err? {
        return Err(p.msg);
      }
      PushedLookup(old(servers), s.value.1, remote, s.value.2, Lookup(s.value.1.git.repo.remotes, remote).value, s.value.2);
      res := Ok((s.value.0, p.value.1));
    }

    /** ensure_embedded_project_mirror_exists: a mirror with a repository in
        it is kept; otherwise the project's manifest is made valid, the URL in
        `.mortar-project-remote` is cloned afresh, the `mortar` remote is added
        when missing and, for the first mirror of the project, `.gitkeep` is
        committed and master pushed. */
    method EnsureMirror(project: Workspace, mirror: Workspace, name: string, org: string, setupId: string)
      returns (res: Result<(Workspace, Workspace)>)
      requires Valid()
      modifies this
      ensures Valid() && installed == old(installed)
      ensures mirror.git.GitRepo? ==> res == Ok((project, mirror)) && pushed == old(pushed) && servers == old(servers)
      ensures !mirror.git.GitRepo? && MirrorRemote(project.files).Err? ==> res == Err(MirrorRemote(project.files).msg)
      ensures !mirror.git.GitRepo? && MirrorRemote(project.files).Ok? && !old(installed) ==> res == Err(GitText.NoGitMessage)
      ensures !mirror.git.GitRepo? && res.Ok? ==>
        MirrorRemote(project.files).Ok? && old(installed)
        && var url := MirrorRemote(project.files).value.1;
        Clone(old(servers), url).Ok?
        && var cloned := Clone(old(servers), url).value;
        res.value.0 == project.(files := MirrorRemote(project.files).value.0)
        && IsMirror(res.value.1, url, org, cloned, setupId)
        && pushed == old(pushed) + SetupPushes(cloned)
        && ([GitKeep] !in cloned.files ==>
              url in servers && Lookup(servers[url], "master") == HeadCommit(res.value.1.git.repo))
    {
      if mirror.git.GitRepo? {
        return Ok((project, mirror));
      }
      var u := MirrorRemote(project.files);
      if u.Err? {
        return Err(u.msg);
      }
      var url := u.value.1;
      if !installed {
        return Err(GitText.NoGitMessage);
      }
      var m := RebuildMirror(url, org, name, setupId);
      if m.Err? {
        return Err(m.msg);
      }
      res := Ok((project.(files := u.value.0), m.value));
    }

    /** The rebuilding half of ensure_embedded_project_mirror_exists: clone,
        add the `mortar` remote when missing, and set up a first mirror. */
    method RebuildMirror(url: string, org: string, name: string, setupId: string) returns (res: Result<Workspace>)
      requires Valid() && installed
      modifies this
      ensures Valid() && installed == old(installed)
      ensures res.Ok? ==>
        Clone(old(servers), url).Ok?
        && var cloned := Clone(old(servers), url).value;
        IsMirror(res.value, url, org, cloned, setupId)
        && pushed == old(pushed) + SetupPushes(cloned)
        && ([GitKeep] !in cloned.files ==>
              url in servers && Lookup(servers[url], "master") == HeadCommit(res.value.git.repo))
    {
      var cl := CloneMirror(servers, url, org, name);
      if cl.Err? {
        return Err(cl.msg);
      }
      var m := cl.value;
      if [GitKeep] !in m.files {
        var committed := SetupCommit(m, setupId).value;
        var pushedRes := PushWithRetry(committed, MortarRemote, "master");
        if pushedRes.Err? {
          return Err(pushedRes.msg);
        }
        PushedLookup(old(servers), committed, MortarRemote, "master", url, "master");
        m := pushedRes.value.0;
        SetupIsMirror(old(servers), url, org, name, setupId, m);
      } else {
        SetupIsMirror(old(servers), url, org, name, setupId, m);
      }
      res := Ok(m);
    }

    /** The two pushes of sync_embedded_project_mirror_with_cloud: the base
        branch, then the snapshot branch, both to `mortar`. */
    method PushPair(m: Workspace, branch: string, snap: string) returns (res: Result<(Workspace, string)>)
      requires Valid() && m.git.GitRepo?
      modifies this
      ensures Valid() && installed == old(installed)
      ensures res.Ok? ==>
        var r := m.git.repo;
        CanPush(installed, old(servers), m, MortarRemote, branch) && HasKey(r.branches, snap)
        && pushed == old(pushed) + [Push(MortarRemote, branch), Push(MortarRemote, snap)]
        && res.value.1 == PushedTip(m, snap).id
        && res.value.0.files == m.files
        && res.value.0.git.GitRepo? && res.value.0.git.repo.branches == r.branches
        && res.value.0.git.repo.remotes == r.remotes && res.value.0.git.repo.head == r.head
        && res.value.0.git.repo.index == r.index
        && var url := Lookup(r.remotes, MortarRemote).value;
        url in servers
        && Lookup(servers[url], snap) == Lookup(r.branches, snap)
        && Lookup(servers[url], branch) == Lookup(r.branches, branch)
    {
      var s0 := servers;
      ghost var pushed0 := pushed;
      var p1 := PushWithRetry(m, MortarRemote, branch);
      if p1.Err? {
        return Err(p1.msg);
      }
      var s1 := servers;
      var p2 := PushWithRetry(p1.value.0, MortarRemote, snap);
      if p2.Err? {
        return Err(p2.msg);
      }
      AppendTwo(pushed0, Push(MortarRemote, branch), Push(MortarRemote, snap));
      assert CanPush(true, s1, p1.value.0, MortarRemote, snap);
      PushPairServers(s0, m, branch, snap);
      res := p2;
    }

    /** sync_embedded_project_mirror_with_cloud: in the mirror, start a
        snapshot branch at the current commit, push the base branch and then
        the snapshot branch to `mortar`, and switch back to the base branch;
        the answer is the hash of the pushed snapshot. */
    method MirrorWithCloud(mirror: Workspace, branch: string, uuid: string) returns (res: Result<(Workspace, string)>)
      requires Valid()
      modifies this
      ensures Valid() && installed == old(installed)
      ensures !old(installed) ==> res == Err(GitText.NoGitMessage)
      ensures mirror.git.GitRepo? && HasKey(mirror.git.repo.branches, SnapshotBranch(uuid)) ==> res.Err?
      ensures res.Ok? ==>
        old(installed) && mirror.git.GitRepo?
        && var r := mirror.git.repo;
        var snap := SnapshotBranch(uuid);
        HeadCommit(r).Some? && res.value.1 == HeadCommit(r).value.id
        && pushed == old(pushed) + [Push(MortarRemote, branch), Push(MortarRemote, snap)]
        && HasKey(r.remotes, MortarRemote) && Lookup(r.remotes, MortarRemote).value in servers
        && var hosted := servers[Lookup(r.remotes, MortarRemote).value];
        Lookup(hosted, snap) == HeadCommit(r)
        && (branch != snap ==> HasKey(r.branches, branch) && Lookup(hosted, branch) == Lookup(r.branches, branch))
        && res.value.0.git.GitRepo? && res.value.0.git.repo.head == branch
        && res.value.0.git.repo.remotes == r.remotes
        && IsClean(res.value.0.files, res.value.0.git.repo)
        && (branch != snap ==> HeadCommit(res.value.0.git.repo) == Lookup(r.branches, branch))
    {
      var snap := SnapshotBranch(uuid);
      var r0 := RepoOf(installed, mirror.git, "checkout -b " + snap);
      if r0.Err? {
        return Err(r0.msg);
      }
      var r1 := Run("checkout -b " + snap, CheckoutNewBranch(r0.value, snap));
      if r1.Err? {
        return Err(r1.msg);
      }
      var m1 := Workspace(mirror.files, GitRepo(r1.value));
      assert r1.value.remotes == r0.value.remotes && HeadCommit(r1.value) == HeadCommit(r0.value);
      var p2 := PushPair(m1, branch, snap);
      if p2.Err? {
        return Err(p2.msg);
      }
      if branch != snap {
        PutLookupOther(r0.value.branches, snap, HeadCommit(r0.value).value, branch);
      }
      var r2 := p2.value.0.git.repo;
      // the base branch was just pushed, so `git checkout` finds it
      var co := Checkout(p2.value.0.files, r2, branch).value;
      res := Ok((Workspace(co.0, GitRepo(co.1)), p2.value.1));
    }

    /** sync_embedded_project: for a project that is not a git repository,
        make sure its mirror exists, refill the mirror from the project on
        `branch`, and push the base branch and a snapshot branch; the answer
        is the snapshot's hash, and the mirror ends on `branch`, clean, at a
        commit whose visible files are exactly the project's listed paths. */
    method SyncEmbeddedProject(project: Workspace, mirror: Workspace, name: string, branch: string, org: string,
                               setupId: string, syncId: string, uuid: string)
      returns (res: Result<(Workspace, Workspace, string)>)
      requires Valid() && !project.git.GitRepo?
      modifies this
      ensures Valid() && installed == old(installed)
      ensures res.Ok? ==>
        var two := [Push(MortarRemote, branch), Push(MortarRemote, SnapshotBranch(uuid))];
        (mirror.git.GitRepo? ==> pushed == old(pushed) + two)
        && (!mirror.git.GitRepo? ==>
              MirrorRemote(project.files).Ok? && Clone(old(servers), MirrorRemote(project.files).value.1).Ok?
              && pushed == old(pushed) + SetupPushes(Clone(old(servers), MirrorRemote(project.files).value.1).value) + two)
      ensures res.Ok? ==>
        var m := res.value.1;
        m.git.GitRepo? && m.git.repo.head == branch && IsClean(m.files, m.git.repo)
        && HasKey(m.git.repo.remotes, MortarRemote) && Lookup(m.git.repo.remotes, MortarRemote).value in servers
      ensures res.Ok? && branch != SnapshotBranch(uuid) ==>
        var m := res.value.1;
        var hosted := servers[Lookup(m.git.repo.remotes, MortarRemote).value];
        HeadCommit(m.git.repo).Some? && HeadCommit(m.git.repo).value.id == res.value.2
        && Lookup(hosted, SnapshotBranch(uuid)) == HeadCommit(m.git.repo)
        && Lookup(hosted, branch) == HeadCommit(m.git.repo)
      ensures res.Ok? && branch != SnapshotBranch(uuid) ==>
        Manifest.Pathlist(res.value.0, false).Ok?
        && var ls := Manifest.Pathlist(res.value.0, false).value.1;
        forall q :: Visible(q) ==>
          (q in res.value.1.files <==> (Listed(ls, q) && q in res.value.0.files) || ParentOfListed(ls, q))
    {
      var e := EnsureMirror(project, mirror, name, org, setupId);
      if e.Err? {
        return Err(e.msg);
      }
      ghost var pushed1 := pushed;
      var s := SyncWithMirror(installed, servers, e.value.0, e.value.1, branch, syncId);
      if s.Err? {
        return Err(s.msg);
      }
      ghost var servers1 := servers;
      SyncShape(installed, servers, e.value.0, e.value.1, branch, syncId);
      SyncTip(installed, servers, e.value.0, e.value.1, branch, syncId);
      var c := MirrorWithCloud(s.value.1, branch, uuid);
      if c.Err? {
        return Err(c.msg);
      }
      var pl := Manifest.Pathlist(e.value.0, false);
      Manifest.PathlistStable(e.value.0, false);
      forall q | Visible(q)
        ensures q in c.value.0.files <==> (Listed(pl.value.1, q) && q in s.value.0.files) || ParentOfListed(pl.value.1, q)
      {
        SyncContents(installed, servers1, e.value.0, e.value.1, branch, syncId, q);
      }
      res := Ok((s.value.0, c.value.0, c.value.1));
    }
  }

  /** A new client whose pushes never get through: the first push gives up
      after ten attempts and the sleeps 1, 1, 2, ..., 55; the counters are
      kept, so a second push on the same object tries once more and gives up
      reporting eleven. */
  method FailingPushes(ws: Workspace, remote: string, branch: string)
    returns (first: Result<(Workspace, string)>, second: Result<(Workspace, string)>, slept: seq<nat>)
    ensures first == Err("Could not connect to github remote. Tried 10 times.")
    ensures second == Err("Could not connect to github remote. Tried 11 times.")
    ensures slept == [1, 1, 2, 3, 5, 8, 13, 21, 34, 55, 89]
  {
    var g := new Git(true, map[], []);
    first := g.PushWithRetry(ws, remote, branch);
    assert g.attempts == 10;
    second := g.PushWithRetry(ws, remote, branch);
    assert g.attempts == 11;
    slept := g.sleeps;
    ElevenSleeps();
    GiveUpMessages();
  }

  lemma ElevenSleeps()
    ensures FibTrace(11) == [1, 1, 2, 3, 5, 8, 13, 21, 34, 55, 89]
  {
    TenSleeps();
    assert Fib(11) == 89;
  }

  lemma GiveUpMessages()
    ensures GiveUpMessage(10) == "Could not connect to github remote. Tried 10 times."
    ensures GiveUpMessage(11) == "Could not connect to github remote. Tried 11 times."
  {
    assert NatToString(10) == "10" && NatToString(11) == "11";
  }

  // ---------------------------------------------------------------------
  // Running git in a directory
  // ---------------------------------------------------------------------

  /** The repository a command runs against: git must be installed and `.git`
      must be there; an empty `.git` is not a repository, and git says so. */
  function RepoOf(installed: bool, git: GitDir, args: string): (r: Result<Repo>)
    ensures r.Ok? <==> installed && git.GitRepo?
    ensures r.Ok? ==> r.value == git.repo
    ensures !installed ==> r == Err(GitText.NoGitMessage)
    ensures installed && git.NoGitDir? ==> r == Err(GitText.NoDotGitMessage)
  {
    if !installed then Err(GitText.NoGitMessage)
    else
      match git
      case NoGitDir => Err(GitText.NoDotGitMessage)
      case EmptyGitDir => Err(GitText.ExecutionError(args, NotARepository))
      case GitRepo(r) => Ok(r)
  }

  /** A command that fails raises with its arguments and git's output. */
  function Run<T>(args: string, r: Result<T>): (res: Result<T>)
    ensures res.Ok? <==> r.Ok?
    ensures r.Ok? ==> res == r
    ensures r.Err? ==> res == Err(GitText.ExecutionError(args, r.msg))
  {
    match r
    case Ok(v) => Ok(v)
    case Err(m) => Err(GitText.ExecutionError(args, m))
  }

  /** copy_files_to_dir: each listed path in turn, with its parent directories. */
  method CopyFilesToDir(src: Workspace, dest: Workspace, paths: seq<string>) returns (res: Result<Workspace>)
    ensures res == CopyAll(src, dest, paths)
  {
    var d := dest;
    var i := 0;
    assert paths[0..] == paths;
    while i < |paths|
      invariant 0 <= i <= |paths|
      invariant CopyAll(src, d, paths[i..]) == CopyAll(src, dest, paths)
    {
      assert paths[i..][0] == paths[i] && paths[i..][1..] == paths[i + 1..];
      var step := CopyOne(src, d, paths[i]);
      if step.Err? {
        return Err(step.msg);
      }
      d := step.value;
      i := i + 1;
    }
    res := Ok(d);
  }

  /** A path list that ends with `.git` carries the repository. */
  lemma {:induction false} ListsGitAppended(xs: seq<string>)
    ensures ListsGit(xs + [".git"])
    decreases |xs|
  {
    if |xs| == 0 {
      PathOfName(".git");
    } else {
      assert (xs + [".git"])[1..] == xs[1..] + [".git"];
      ListsGitAppended(xs[1..]);
    }
  }

  // ---------------------------------------------------------------------
  // Snapshots of a project that is a git repository
  // ---------------------------------------------------------------------

  /** What a snapshot is: the project (its manifest made valid); a copy of what
      the manifest lists, the repository included, on the new branch
      `mortar-snapshot-<uuid>`, clean, whose commit is the project's current
      one when the copy holds the same tree and otherwise a new snapshot commit
      on top of it; and the branch name. */
  predicate IsSnapshot(project: Workspace, uuid: string, commitId: string, s: (Workspace, Workspace, string))
    requires project.git.GitRepo?
  {
    var before := project.git.repo;
    var pl := Manifest.Pathlist(project, true);
    var dir := s.1;
    pl.Ok? && s.0 == pl.value.0 && s.0.git == project.git
    && CopyAll(pl.value.0, EmptyWorkspace, pl.value.1).Ok?
    && dir.files == CopyAll(pl.value.0, EmptyWorkspace, pl.value.1).value.files
    && s.2 == SnapshotBranch(uuid)
    && dir.git.GitRepo? && dir.git.repo.head == s.2
    && dir.git.repo.remotes == before.remotes
    && IsClean(dir.files, dir.git.repo)
    && HeadCommit(dir.git.repo)
       == if dir.files == HeadTree(before) then HeadCommit(before)
          else Some(Commit(commitId, dir.files, SnapshotMessage, HeadCommit(before)))
  }

  /** create_snapshot_branch: the project must have a commit; its listed paths
      and `.git` are copied to a fresh directory, where a new branch is made
      and everything is committed as a snapshot when it differs. The project's
      own repository is left as it was. */
  function CreateSnapshotBranch(installed: bool, project: Workspace, uuid: string, commitId: string)
    : (r: Result<(Workspace, Workspace, string)>)
    ensures !(installed && HasCommits(project)) ==> r == Err(NoCommitsMessage)
    ensures r.Ok? ==> installed && HasCommits(project) && IsSnapshot(project, uuid, commitId, r.value)
  {
    if !(installed && HasCommits(project)) then Err(NoCommitsMessage)
    else
      var pl :- Manifest.Pathlist(project, true);
      var tmp :- CopyAll(pl.0, EmptyWorkspace, pl.1);
      var r0 :- RepoOf(installed, tmp.git, "branch");
      var current :- GitText.CurrentBranch(Branches(r0));
      var branch := SnapshotBranch(uuid);
      var r1 :- Run("checkout -b " + branch, CheckoutNewBranch(r0, branch));
      var r2 := AddUpdate(tmp.files, AddAll(tmp.files, r1));
      var r3 :- if IsClean(tmp.files, r2) then Ok(r2)
                else Run("commit -m \"" + SnapshotMessage + "\"", CommitIndex(r2, commitId, SnapshotMessage));
      SnapshotFacts(project, pl, tmp, r1, r2, r3, commitId);
      Ok((pl.0, Workspace(tmp.files, GitRepo(r3)), branch))
  }

  /** The steps after the copy, one fact each. */
  lemma SnapshotFacts(project: Workspace, pl: (Workspace, seq<string>), tmp: Workspace,
                      r1: Repo, r2: Repo, r3: Repo, commitId: string)
    requires project.git.GitRepo? && Manifest.Pathlist(project, true) == Ok(pl)
    requires CopyAll(pl.0, EmptyWorkspace, pl.1) == Ok(tmp)
    requires tmp.git.GitRepo? && CheckoutNewBranch(tmp.git.repo, r1.head) == Ok(r1)
    requires r2 == AddUpdate(tmp.files, AddAll(tmp.files, r1))
    requires if IsClean(tmp.files, r2) then r3 == r2 else CommitIndex(r2, commitId, SnapshotMessage) == Ok(r3)
    ensures pl.0.git == project.git && tmp.git == project.git
    ensures r3.head == r1.head && r3.remotes == project.git.repo.remotes
    ensures IsClean(tmp.files, r3)
    ensures HeadCommit(r3)
            == if tmp.files == HeadTree(project.git.repo) then HeadCommit(project.git.repo)
               else Some(Commit(commitId, tmp.files, SnapshotMessage, HeadCommit(project.git.repo)))
  {
    Manifest.PathlistSpec(project, true);
    ListsGitAppended(Manifest.Kept(SplitLines(Manifest.EnsureValid(project.files).value[[Manifest.Name(Manifest.EnsureValid(project.files).value)]].content)));
    CopyAllGit(pl.0, EmptyWorkspace, pl.1);
    StageEverything(tmp.files, r1);
  }

  /** The snapshot holds exactly the listed paths, with everything under them
      and their parent directories, and the project's content there. */
  lemma SnapshotContents(installed: bool, project: Workspace, uuid: string, commitId: string, q: Path)
    requires CreateSnapshotBranch(installed, project, uuid, commitId).Ok?
    ensures var s := CreateSnapshotBranch(installed, project, uuid, commitId).value;
      var ls := Manifest.Pathlist(project, true).value.1;
      (q in s.1.files <==> (Listed(ls, q) && q in s.0.files) || ParentOfListed(ls, q))
      && (Listed(ls, q) && q in s.0.files ==> s.1.files[q] == s.0.files[q])
  {
    var pl := Manifest.Pathlist(project, true).value;
    CopyAllPaths(pl.0, EmptyWorkspace, pl.1, q);
    if Listed(pl.1, q) && q in pl.0.files {
      CopyAllListedValues(pl.0, EmptyWorkspace, pl.1, q);
    }
  }

  // ---------------------------------------------------------------------
  // The mirror of a project that is not a git repository
  // ---------------------------------------------------------------------

  const MirrorsDir := "/tmp/mortar-git-mirrors"
  const StashArgs := "stash save --include-untracked cleaning out mirror working directory"
  const SnapshotCommitArgs := "commit -m \"mortar development snapshot commit\""

  /** The remote-tracking branch on the Mortar remote for `branch`. */
  function MortarRef(branch: string): string {
    MortarRemote + "/" + branch
  }

  lemma MortarRefIsBranchName(branch: string)
    requires GitText.IsBranchName(branch)
    ensures GitText.IsBranchName(MortarRef(branch))
  {
    var ref := MortarRef(branch);
    forall i | 0 <= i < |ref|
      ensures ref[i] !in Whitespace
    {
      if i >= |MortarRemote| + 1 {
        assert ref[i] == branch[i - |MortarRemote| - 1];
      }
    }
  }

  /** The branch switch of sync_embedded_project_with_mirror, on a clean
      mirror.  Whether the branch exists is asked of the `git branch` listing
      by substring, and whether the Mortar remote has it of the
      `git branch --all` listing, also by substring. */
  function SelectBranch(files: FileSystem, r: Repo, branch: string): (res: Result<(FileSystem, Repo)>)
    ensures res.Ok? ==> res.value.1.head == branch && IsClean(res.value.0, res.value.1)
    ensures res.Ok? ==> res.value.1.remotes == r.remotes && res.value.1.tracking == r.tracking
    ensures res.Ok? ==> res.value.1.stashes == r.stashes
    ensures !HasKey(r.branches, branch) && !HasKey(r.branches, "master") ==> res.Err?
    ensures Contains(Branches(r), branch) && !HasKey(r.branches, branch) ==> res.Err?
  {
    var ref := MortarRef(branch);
    if Contains(Branches(r), branch) then
      var c :- Run("checkout " + branch, Checkout(files, r, branch));
      if Contains(AllBranches(c.1), "remotes/" + ref) then
        Run("reset --hard " + ref, ResetHard(c.0, c.1, ref))
      else Ok(c)
    else
      var c :- Run("checkout master", Checkout(files, r, "master"));
      if Contains(AllBranches(c.1), "remotes/" + ref) then
        Run("checkout -b " + branch + " " + ref, CheckoutNewTracking(c.0, c.1, branch, ref))
      else
        var r2 :- Run("checkout -b " + branch, CheckoutNewBranch(c.1, branch));
        Ok((c.0, r2))
  }

  /** Where the branch ends up: at the Mortar remote's branch when there is
      one, else where the local branch was, else at master. */
  lemma SelectBranchTip(files: FileSystem, r: Repo, branch: string)
    requires SelectBranch(files, r, branch).Ok? && GitText.IsBranchName(branch)
    ensures HeadCommit(SelectBranch(files, r, branch).value.1)
            == if HasKey(r.tracking, MortarRef(branch)) then Lookup(r.tracking, MortarRef(branch))
               else if HasKey(r.branches, branch) then Lookup(r.branches, branch)
               else Lookup(r.branches, "master")
  {
    var ref := MortarRef(branch);
    MortarRefIsBranchName(branch);
    if Contains(Branches(r), branch) {
      var c := Checkout(files, r, branch).value;
      if !Contains(AllBranches(c.1), "remotes/" + ref) && HasKey(r.tracking, ref) {
        AllBranchesShowTracking(c.1, ref);
      }
    } else {
      if HasKey(r.branches, branch) {
        BranchesShowBranch(r, branch);
      }
      var c := Checkout(files, r, "master").value;
      if !Contains(AllBranches(c.1), "remotes/" + ref) && HasKey(r.tracking, ref) {
        AllBranchesShowTracking(c.1, ref);
      }
    }
  }

  /** The switch succeeds when the Mortar remote has the branch and there is
      a local branch of that name, or none whose name contains it and a
      master to start from. */
  lemma SelectBranchSucceeds(files: FileSystem, r: Repo, branch: string)
    requires GitText.IsBranchName(branch) && HasKey(r.tracking, MortarRef(branch))
    requires HasKey(r.branches, branch) || (!Contains(Branches(r), branch) && HasKey(r.branches, "master"))
    ensures SelectBranch(files, r, branch).Ok?
  {
    var ref := MortarRef(branch);
    MortarRefIsBranchName(branch);
    if HasKey(r.branches, branch) {
      BranchesShowBranch(r, branch);
      var c := Checkout(files, r, branch).value;
      AllBranchesShowTracking(c.1, ref);
    } else {
      var c := Checkout(files, r, "master").value;
      AllBranchesShowTracking(c.1, ref);
    }
  }

  /** The first half of sync_embedded_project_with_mirror: local changes in
      the mirror are stashed, every remote is fetched and the branch is
      selected. */
  function PrepareMirror(installed: bool, servers: Servers, mirror: Workspace, branch: string)
    : (res: Result<(FileSystem, Repo)>)
    ensures res.Ok? ==> installed && mirror.git.GitRepo?
    ensures res.Ok? ==> res.value.1.head == branch && IsClean(res.value.0, res.value.1)
    ensures res.Ok? ==> res.value.1.remotes == mirror.git.repo.remotes
    ensures res.Ok? ==> res.value.1.stashes
                        == if IsClean(mirror.files, mirror.git.repo) then mirror.git.repo.stashes
                           else mirror.git.repo.stashes + [mirror.files]
  {
    var r0 :- RepoOf(installed, mirror.git, StashArgs);
    var st :- Run(StashArgs, Stash(mirror.files, r0));
    var r1 :- Run("fetch --all", FetchAll(st.1, servers, Keys(st.1.remotes)));
    SelectBranch(st.0, r1, branch)
  }

  /** The end of sync_embedded_project_with_mirror: when the mirror is not
      clean, everything is staged and committed as a snapshot. */
  function CommitMirror(installed: bool, copy: Workspace, commitId: string): (res: Result<Workspace>)
    ensures res.Ok? ==> installed && copy.git.GitRepo? && res.value.files == copy.files && res.value.git.GitRepo?
    ensures res.Ok? ==> IsClean(res.value.files, res.value.git.repo)
    ensures res.Ok? ==> res.value.git.repo.head == copy.git.repo.head && res.value.git.repo.remotes == copy.git.repo.remotes
    ensures res.Ok? ==>
      HeadCommit(res.value.git.repo)
      == if copy.files == HeadTree(copy.git.repo) then HeadCommit(copy.git.repo)
         else Some(Commit(commitId, copy.files, SnapshotMessage, HeadCommit(copy.git.repo)))
    ensures installed && copy.git.GitRepo? && copy.git.repo.index == HeadTree(copy.git.repo) ==> res.Ok?
  {
    var r :- RepoOf(installed, copy.git, "status --porcelain");
    if IsClean(copy.files, r) then Ok(copy)
    else
      var staged := AddUpdate(copy.files, AddAll(copy.files, r));
      StageEverything(copy.files, r);
      var r' :- Run(SnapshotCommitArgs, CommitIndex(staged, commitId, SnapshotMessage));
      Ok(Workspace(copy.files, GitRepo(r')))
  }

  /** sync_embedded_project_with_mirror: the mirror is put on the branch, its
      visible entries are wiped, the project's listed paths are copied in and
      the result is committed.  Returns the project (its manifest made valid)
      and the mirror. */
  function SyncWithMirror(installed: bool, servers: Servers, project: Workspace, mirror: Workspace,
                          branch: string, commitId: string): (res: Result<(Workspace, Workspace)>)
    ensures res.Ok? ==> PrepareMirror(installed, servers, mirror, branch).Ok? && Manifest.Pathlist(project, false).Ok?
  {
    match PrepareMirror(installed, servers, mirror, branch)
    case Err(e) => Err(e)
    case Ok(prep) =>
      match Manifest.Pathlist(project, false)
      case Err(e) => Err(e)
      case Ok(pl) =>
        match FillMirror(installed, prep, pl.0, pl.1, commitId)
        case Err(e) => Err(e)
        case Ok(m) => Ok((pl.0, m))
  }

  /** Where sync_embedded_project_with_mirror leaves things: the project with
      its manifest made valid, and the mirror, clean, holding the refilled
      copy. */
  lemma SyncShape(installed: bool, servers: Servers, project: Workspace, mirror: Workspace,
                  branch: string, commitId: string)
    requires SyncWithMirror(installed, servers, project, mirror, branch, commitId).Ok?
    ensures var res := SyncWithMirror(installed, servers, project, mirror, branch, commitId).value;
      var prep := PrepareMirror(installed, servers, mirror, branch).value;
      var pl := Manifest.Pathlist(project, false).value;
      res.0 == pl.0 && FillMirror(installed, prep, pl.0, pl.1, commitId) == Ok(res.1)
      && res.1.git.GitRepo? && IsClean(res.1.files, res.1.git.repo)
  {
    var prep := PrepareMirror(installed, servers, mirror, branch).value;
    var pl := Manifest.Pathlist(project, false).value;
    var c := CopyAll(pl.0, Wiped(prep), pl.1);
  }

  /** The mirror with its visible entries wiped and the listed paths copied
      in, then committed. */
  function Wiped(prep: (FileSystem, Repo)): Workspace {
    Workspace(WipeVisible(prep.0), GitRepo(prep.1))
  }

  function FillMirror(installed: bool, prep: (FileSystem, Repo), src: Workspace, paths: seq<string>,
                      commitId: string): (res: Result<Workspace>)
    ensures res.Ok? ==> CopyAll(src, Wiped(prep), paths).Ok?
    ensures res.Ok? ==> var c := CopyAll(src, Wiped(prep), paths).value;
      c.git.GitRepo? && res.value.files == c.files && res.value.git.GitRepo?
      && IsClean(res.value.files, res.value.git.repo)
      && res.value.git.repo.head == c.git.repo.head && res.value.git.repo.remotes == c.git.repo.remotes
      && HeadCommit(res.value.git.repo)
         == if c.files == HeadTree(c.git.repo) then HeadCommit(c.git.repo)
            else Some(Commit(commitId, c.files, SnapshotMessage, HeadCommit(c.git.repo)))
  {
    var copy :- CopyAll(src, Wiped(prep), paths);
    CommitMirror(installed, copy, commitId)
  }

  /** For a project that is not itself a repository, the mirror is on the
      branch, keeps its remotes, and the branch moves by one snapshot commit exactly when the
      copied tree differs from the selected branch's. */
  lemma SyncTip(installed: bool, servers: Servers, project: Workspace, mirror: Workspace,
                branch: string, commitId: string)
    requires SyncWithMirror(installed, servers, project, mirror, branch, commitId).Ok?
    requires !project.git.GitRepo?
    ensures var prev := PrepareMirror(installed, servers, mirror, branch).value.1;
      var m := SyncWithMirror(installed, servers, project, mirror, branch, commitId).value.1;
      m.git.GitRepo? && mirror.git.GitRepo?
      && m.git.repo.head == branch && m.git.repo.remotes == mirror.git.repo.remotes
      && HeadCommit(m.git.repo)
         == if m.files == HeadTree(prev) then HeadCommit(prev)
            else Some(Commit(commitId, m.files, SnapshotMessage, HeadCommit(prev)))
  {
    SyncShape(installed, servers, project, mirror, branch, commitId);
    var prep := PrepareMirror(installed, servers, mirror, branch).value;
    var pl := Manifest.Pathlist(project, false).value;
    Manifest.PathlistSpec(project, false);
    CopyAllGit(pl.0, Wiped(prep), pl.1);
  }

  /** The wiped and refilled mirror: its visible entries are exactly the
      listed paths (with their parent directories) and hold the project's
      content; its hidden top-level entries that are not listed stay as the
      branch had them. */
  lemma FillContents(installed: bool, prep: (FileSystem, Repo), src: Workspace, paths: seq<string>,
                     commitId: string, q: Path)
    requires FillMirror(installed, prep, src, paths, commitId).Ok?
    ensures var m := FillMirror(installed, prep, src, paths, commitId).value;
      (Visible(q) ==> (q in m.files <==> (Listed(paths, q) && q in src.files) || ParentOfListed(paths, q)))
      && (Listed(paths, q) && q in src.files ==> q in m.files && m.files[q] == src.files[q])
      && (!Visible(q) && q != [] && q in prep.0 && !Listed(paths, q) ==> q in m.files && m.files[q] == prep.0[q])
  {
    CopyAllPaths(src, Wiped(prep), paths, q);
    if Listed(paths, q) && q in src.files {
      CopyAllListedValues(src, Wiped(prep), paths, q);
    }
    if !Visible(q) && q != [] && q in prep.0 && !Listed(paths, q) {
      CopyAllOtherValues(src, Wiped(prep), paths, q);
    }
  }

  /** The same for the whole sync. */
  lemma SyncContents(installed: bool, servers: Servers, project: Workspace, mirror: Workspace,
                     branch: string, commitId: string, q: Path)
    requires SyncWithMirror(installed, servers, project, mirror, branch, commitId).Ok?
    ensures var res := SyncWithMirror(installed, servers, project, mirror, branch, commitId).value;
      var prep := PrepareMirror(installed, servers, mirror, branch).value;
      var ls := Manifest.Pathlist(project, false).value.1;
      (Visible(q) ==> (q in res.1.files <==> (Listed(ls, q) && q in res.0.files) || ParentOfListed(ls, q)))
      && (Listed(ls, q) && q in res.0.files ==> q in res.1.files && res.1.files[q] == res.0.files[q])
      && (!Visible(q) && q != [] && q in prep.0 && !Listed(ls, q) ==> q in res.1.files && res.1.files[q] == prep.0[q])
  {
    SyncShape(installed, servers, project, mirror, branch, commitId);
    var prep := PrepareMirror(installed, servers, mirror, branch).value;
    var pl := Manifest.Pathlist(project, false).value;
    FillContents(installed, prep, pl.0, pl.1, commitId, q);
  }

  // ---------------------------------------------------------------------
  // Forks
  // ---------------------------------------------------------------------

  const ForkBaseRemote := "base"
  const ForkMetaFile := ".mortar-fork"
  const LatestHashArgs := "log --pretty=\"%H\" -n 1 base"
  const LogArgs := "log --pretty=\"%H\""

  /** The remote-tracking branch that `base` names: the fork base's master. */
  const BaseRef := ForkBaseRemote + "/" + "master"

  /** get_latest_hash: the hash of the fork base's tip, as the command wrapper
      trims it. */
  function BaseTip(r: Repo): (res: Result<string>)
    ensures res.Ok? <==> HasKey(r.tracking, BaseRef)
    ensures res.Ok? ==> res.value == Strip(Lookup(r.tracking, BaseRef).value.id)
  {
    match Lookup(r.tracking, BaseRef)
    case None =>
      Err(GitText.ExecutionError(LatestHashArgs,
        "fatal: ambiguous argument 'base': unknown revision or path not in the working tree."))
    case Some(c) => Ok(Strip(c.id))
  }

  /** get_last_recorded_fork_hash: the trimmed content of `.mortar-fork`, if
      the file is there. */
  function RecordedHash(files: FileSystem): (res: Result<Option<string>>)
    ensures [ForkMetaFile] !in files ==> res == Ok(None)
    ensures IsFile(files, [ForkMetaFile]) ==> res == Ok(Some(Strip(files[[ForkMetaFile]].content)))
    ensures IsDir(files, [ForkMetaFile]) ==> res.Err?
  {
    if [ForkMetaFile] !in files then Ok(None)
    else
      var c :- Read(files, [ForkMetaFile], ForkMetaFile);
      Ok(Some(Strip(c)))
  }

  /** contains_hash: the current branch's history, one hash per line,
      mentions `h`; git refuses the log of a branch without commits. */
  function ContainsHash(r: Repo, h: string): (res: Result<bool>)
    ensures res.Ok? <==> HeadCommit(r).Some?
    ensures res.Ok? ==> res.value == Contains(Log(r), h)
  {
    if HeadCommit(r).None? then
      Err(GitText.ExecutionError(LogArgs, "fatal: your current branch '" + r.head + "' does not have any commits yet"))
    else Ok(Contains(Log(r), h))
  }

  /** Whether `base` is among the remotes; remotes(git_organization) only
      keeps those whose URL names a project of the organization. */
  predicate HasForkBase(r: Repo, org: string) {
    HasKey(GitText.Remotes(RemoteListing(r.remotes), org), ForkBaseRemote)
  }

  /** is_fork_repo_updated: with a `base` remote, fetch it; when its tip is
      neither the recorded hash nor in the local history, record it in
      `.mortar-fork` and answer true.  Returns the directory and the answer. */
  function ForkUpdated(installed: bool, servers: Servers, ws: Workspace, org: string): (res: Result<(Workspace, bool)>)
    ensures res.Ok? ==> installed && ws.git.GitRepo? && res.value.0.git.GitRepo?
    ensures res.Ok? ==> res.value.0.git.repo.(tracking := ws.git.repo.tracking) == ws.git.repo
    ensures installed && ws.git.GitRepo? && !HasForkBase(ws.git.repo, org) ==> res == Ok((ws, false))
    ensures res.Ok? && !res.value.1 ==> res.value.0.files == ws.files
    ensures res.Ok? && HasForkBase(ws.git.repo, org) ==>
      Fetch(ws.git.repo, servers, ForkBaseRemote) == Ok(res.value.0.git.repo)
    ensures res.Ok? && res.value.1 ==>
      HasForkBase(ws.git.repo, org) && BaseTip(res.value.0.git.repo).Ok?
      && var latest := BaseTip(res.value.0.git.repo).value;
      res.value.0.files == ws.files[[ForkMetaFile] := File(latest)]
      && RecordedHash(ws.files) != Ok(Some(latest))
      && ContainsHash(res.value.0.git.repo, latest) == Ok(false)
    ensures installed && ws.git.GitRepo? && HasForkBase(ws.git.repo, org) ==>
      var f := Fetch(ws.git.repo, servers, ForkBaseRemote);
      (res.Ok? <==> f.Ok? && BaseTip(f.value).Ok? && RecordedHash(ws.files).Ok?
                    && (RecordedHash(ws.files).value == Some(BaseTip(f.value).value) || HeadCommit(f.value).Some?))
    ensures res.Ok? && HasForkBase(ws.git.repo, org) ==>
      BaseTip(res.value.0.git.repo).Ok?
      && var latest := BaseTip(res.value.0.git.repo).value;
      (res.value.1 <==> RecordedHash(ws.files) != Ok(Some(latest)) && ContainsHash(res.value.0.git.repo, latest) == Ok(false))
  {
    var r0 :- RepoOf(installed, ws.git, "remote -v");
    if !HasForkBase(r0, org) then Ok((ws, false))
    else
      var r1 :- Run("fetch base", Fetch(r0, servers, ForkBaseRemote));
      var latest :- BaseTip(r1);
      var recorded :- RecordedHash(ws.files);
      var known :- if recorded == Some(latest) then Ok(true) else ContainsHash(r1, latest);
      if known then Ok((Workspace(ws.files, GitRepo(r1)), false))
      else Ok((Workspace(ws.files[[ForkMetaFile] := File(latest)], GitRepo(r1)), true))
  }

  /** The recorded hash is the tip of the upstream master the fetch brought. */
  lemma ForkRecordsUpstream(installed: bool, servers: Servers, ws: Workspace, org: string)
    requires ForkUpdated(installed, servers, ws, org).Ok? && ForkUpdated(installed, servers, ws, org).value.1
    ensures ws.git.GitRepo? && HasKey(ws.git.repo.remotes, ForkBaseRemote)
    ensures var url := Lookup(ws.git.repo.remotes, ForkBaseRemote).value;
      var files := ForkUpdated(installed, servers, ws, org).value.0.files;
      url in servers && [ForkMetaFile] in files
      && (HasKey(servers[url], "master") ==>
            files[[ForkMetaFile]] == File(Strip(LastValue(servers[url], "master").value.id)))
  {
    var r0 := ws.git.repo;
    var r1 := ForkUpdated(installed, servers, ws, org).value.0.git.repo;
    assert Fetch(r0, servers, ForkBaseRemote) == Ok(r1);
    var url := Lookup(r0.remotes, ForkBaseRemote).value;
    assert r1.tracking == TrackAll(r0.tracking, ForkBaseRemote, servers[url]);
    TrackAllLookup(r0.tracking, ForkBaseRemote, servers[url], "master");
  }

  /** Recording makes is_fork_repo_updated idempotent: asked again with nothing new
      upstream, it answers false. */
  lemma ForkUpdatedOnce(installed: bool, servers: Servers, ws: Workspace, org: string)
    requires ForkUpdated(installed, servers, ws, org).Ok? && ForkUpdated(installed, servers, ws, org).value.1
    ensures var ws1 := ForkUpdated(installed, servers, ws, org).value.0;
      ForkUpdated(installed, servers, ws1, org).Ok? && !ForkUpdated(installed, servers, ws1, org).value.1
  {
    var r0 := ws.git.repo;
    var ws1 := ForkUpdated(installed, servers, ws, org).value.0;
    var r1 := ws1.git.repo;
    var url := Lookup(r0.remotes, ForkBaseRemote).value;
    var r2 := Fetch(r1, servers, ForkBaseRemote).value;
    var latest := BaseTip(r1).value;
    assert BaseTip(r2) == Ok(latest) by {
      TrackAllLookup(r0.tracking, ForkBaseRemote, servers[url], "master");
      TrackAllLookup(r1.tracking, ForkBaseRemote, servers[url], "master");
    }
    assert RecordedHash(ws1.files) == Ok(Some(latest)) by {
      StripTrimmed(latest);
    }
  }

  // ---------------------------------------------------------------------
  // Setting up the mirror
  // ---------------------------------------------------------------------

  /** The project's manifest made valid, then the trimmed URL that
      `.mortar-project-remote` holds. */
  function MirrorRemote(files: FileSystem): (res: Result<(FileSystem, string)>)
    ensures res.Ok? ==> Manifest.EnsureValid(files) == Ok(res.value.0)
    ensures res.Ok? ==> IsFile(files, [ProjectRemoteFile]) && res.value.1 == Strip(files[[ProjectRemoteFile]].content)
  {
    var files1 :- Manifest.EnsureValid(files);
    Manifest.EnsureValidSpec(files);
    assert [ProjectRemoteFile] != [Manifest.Name(files)];
    var content :- Read(files1, [ProjectRemoteFile], ProjectRemoteFile);
    Ok((files1, Strip(content)))
  }

  /** The remotes of a fresh mirror: `origin` from the clone, and `mortar` at
      the same URL unless remotes(git_organization) already reports a
      `mortar`. */
  function MirrorRemotes(url: string, org: string): Assoc<string, string> {
    var cloned := [("origin", url)];
    if HasKey(GitText.Remotes(RemoteListing(cloned), org), MortarRemote) then cloned
    else cloned + [(MortarRemote, url)]
  }

  /** What ensure_embedded_project_mirror_exists builds from a fresh clone:
      master checked out and clean, the remotes above, and `.gitkeep` there;
      unless the clone already had `.gitkeep`, a setup commit adds it on top
      of what the clone had. */
  predicate IsMirror(m: Workspace, url: string, org: string, cloned: Workspace, setupId: string)
    requires cloned.git.GitRepo?
  {
    m.git.GitRepo? && m.git.repo.head == "master"
    && m.git.repo.remotes == MirrorRemotes(url, org)
    && IsClean(m.files, m.git.repo) && [GitKeep] in m.files
    && if [GitKeep] in cloned.files then
         m.files == cloned.files && HeadCommit(m.git.repo) == HeadCommit(cloned.git.repo)
       else
         m.files == cloned.files[[GitKeep] := File("")]
         && HeadCommit(m.git.repo) == Some(Commit(setupId, m.files, SetupMessage, HeadCommit(cloned.git.repo)))
  }

  /** The pushes the setup makes: master, once, for a first mirror. */
  function SetupPushes(cloned: Workspace): seq<Push> {
    if [GitKeep] in cloned.files then [] else [Push(MortarRemote, "master")]
  }

  /** The clone of ensure_embedded_project_mirror_exists, with the `mortar`
      remote added when remotes(git_organization) does not report one. */
  function CloneMirror(servers: Servers, url: string, org: string, name: string): (res: Result<Workspace>)
    ensures res.Ok? <==> url in servers
    ensures res.Ok? ==>
      var cloned := Clone(servers, url).value;
      res.value == Workspace(cloned.files, GitRepo(cloned.git.repo.(remotes := MirrorRemotes(url, org))))
  {
    var cloned :- Run("clone -o origin " + url + " \"" + MirrorsDir + "/" + name + "\"", Clone(servers, url));
    var r := cloned.git.repo;
    if HasKey(GitText.Remotes(RemoteListing(r.remotes), org), MortarRemote) then Ok(cloned)
    else
      match Run("remote add mortar " + url, RemoteAdd(r, MortarRemote, url))
      case Err(e) => Err(e)
      case Ok(r') => Ok(Workspace(cloned.files, GitRepo(r')))
  }

  /** The first user's setup: an empty `.gitkeep`, staged and committed. */
  function SetupCommit(m: Workspace, setupId: string): (res: Result<Workspace>)
    ensures m.git.GitRepo? && IsClean(m.files, m.git.repo) && [GitKeep] !in m.files ==> res.Ok?
    ensures res.Ok? ==> m.git.GitRepo? && res.value.git.GitRepo?
    ensures res.Ok? ==>
      var r := res.value.git.repo;
      res.value.files == m.files[[GitKeep] := File("")]
      && r.head == m.git.repo.head && r.remotes == m.git.repo.remotes
      && (IsClean(m.files, m.git.repo) ==>
            IsClean(res.value.files, r)
            && HeadCommit(r) == Some(Commit(setupId, res.value.files, SetupMessage, HeadCommit(m.git.repo))))
  {
    if !m.git.GitRepo? then Err(GitText.NoDotGitMessage)
    else
      var withKeep := m.files[[GitKeep] := File("")];
      var staged := AddAll(withKeep, m.git.repo);
      var r :- Run("commit -m \"" + SetupMessage + "\"", CommitIndex(staged, setupId, SetupMessage));
      assert IsClean(m.files, m.git.repo) ==> staged.index == withKeep;
      Ok(Workspace(withKeep, GitRepo(r)))
  }

  /** Either way the setup goes, the result is a mirror as IsMirror says. */
  lemma SetupIsMirror(servers: Servers, url: string, org: string, name: string, setupId: string, m: Workspace)
    requires CloneMirror(servers, url, org, name).Ok?
    requires var c := CloneMirror(servers, url, org, name).value;
      if [GitKeep] in c.files then m == c
      else SetupCommit(c, setupId).Ok? && SetupCommit(c, setupId).value.git.GitRepo?
           && HasKey(SetupCommit(c, setupId).value.git.repo.branches, "master")
           && m == PushedWorkspace(SetupCommit(c, setupId).value, MortarRemote, "master")
    ensures Clone(servers, url).Ok? && IsMirror(m, url, org, Clone(servers, url).value, setupId)
  {
  }
}
