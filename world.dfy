/** The file system and git repositories the client acts on, as values: a
    directory is a map from relative paths to files and directories, a
    repository has local branches, a current branch, an index, remote-tracking
    branches, remotes and stashes, and a commit value stands for its hash.
    Each git command the client issues is a function from one state to the next
    (or to git's error). */
module World {
  import opened Common
  import GitText

  // ---------------------------------------------------------------------
  // Files
  // ---------------------------------------------------------------------

  /** A path relative to a project directory, as its components. */
  type Path = seq<string>

  datatype Node = File(content: string) | Dir

  /** Everything under one directory, by relative path. */
  type FileSystem = map<Path, Node>

  /** The components of a path as written ("a/b", "a/b/", "./a//b" all name
      ["a", "b"]. */
  function PathOf(raw: string): (p: Path)
    ensures forall i :: 0 <= i < |p| ==> p[i] != "" && p[i] != "."
  {
    Named(Fields(raw, {'/'}))
  }

  function Named(cs: seq<string>): (r: seq<string>)
    ensures forall i :: 0 <= i < |r| ==> r[i] != "" && r[i] != "."
  {
    if |cs| == 0 then []
    else if cs[0] == "" || cs[0] == "." then Named(cs[1..])
    else [cs[0]] + Named(cs[1..])
  }

  /** A name with no `/` in it is a path of one component. */
  lemma PathOfName(name: string)
    requires name != "" && name != "." && NoneIn(name, {'/'})
    ensures PathOf(name) == [name]
  {
    FieldsNoSeparator(name, {'/'});
    assert Named([name]) == [name] + Named([name][1..]);
    assert [name][1..] == [];
  }

  predicate IsPrefix(p: Path, q: Path) {
    |p| <= |q| && q[..|p|] == p
  }

  /** File.directory? */
  predicate IsDir(fs: FileSystem, p: Path) {
    p == [] || (p in fs && fs[p].Dir?)
  }

  predicate IsFile(fs: FileSystem, p: Path) {
    p in fs && fs[p].File?
  }

  /** File.read of a regular file. */
  function Read(fs: FileSystem, p: Path, name: string): (r: Result<string>)
    ensures r.Ok? <==> IsFile(fs, p)
    ensures r.Ok? ==> r.value == fs[p].content
  {
    if p !in fs then Err("No such file or directory @ rb_sysopen - " + name)
    else if fs[p].Dir? then Err("Is a directory @ io_fread - " + name)
    else Ok(fs[p].content)
  }

  // ---------------------------------------------------------------------
  // Repositories
  // ---------------------------------------------------------------------

  /** A commit; its `id` is the hash git prints for it. */
  datatype Commit = Commit(id: string, tree: FileSystem, message: string, parent: Option<Commit>)

  datatype Repo = Repo(
    branches: Assoc<string, Commit>,   // local branches and their tips
    head: string,                      // the current branch (maybe not born yet)
    index: FileSystem,                 // the staged tree
    tracking: Assoc<string, Commit>,   // remote-tracking branches, "<remote>/<branch>"
    remotes: Assoc<string, string>,    // remote name to URL
    stashes: seq<FileSystem>)

  /** What is in a directory's `.git`: nothing, an empty directory, or a
      repository. */
  datatype GitDir = NoGitDir | EmptyGitDir | GitRepo(repo: Repo)

  /** One directory on disk: its files and its `.git`. */
  datatype Workspace = Workspace(files: FileSystem, git: GitDir)

  const EmptyWorkspace := Workspace(map[], NoGitDir)

  /** The hosted repositories, by URL: each one's branches. */
  type Servers = map<string, Assoc<string, Commit>>

  /** File.exists? for a path as written; `.git` is the repository directory. */
  predicate Exists(ws: Workspace, raw: string) {
    var p := PathOf(raw);
    if p == [".git"] then !ws.git.NoGitDir? else p == [] || p in ws.files
  }

  function HeadCommit(r: Repo): Option<Commit> {
    Lookup(r.branches, r.head)
  }

  function HeadTree(r: Repo): FileSystem {
    match HeadCommit(r)
    case Some(c) => c.tree
    case None => map[]
  }

  /** `git status --porcelain` prints nothing: the work tree, the index and
      the current commit agree. */
  predicate IsClean(files: FileSystem, r: Repo) {
    files == r.index && r.index == HeadTree(r)
  }

  /** `git rev-parse --verify --quiet HEAD` succeeds. */
  predicate HasCommits(ws: Workspace) {
    ws.git.GitRepo? && HeadCommit(ws.git.repo).Some?
  }

  // --- staging ---

  /** `git add .`: new and changed files are staged. */
  function AddAll(files: FileSystem, r: Repo): Repo {
    r.(index := r.index + files)
  }

  /** `git add -u .`: tracked files are updated and deleted ones unstaged. */
  function AddUpdate(files: FileSystem, r: Repo): Repo {
    r.(index := map q | q in r.index && q in files :: files[q])
  }

  /** Staging with both commands makes the index the work tree, additions and
      deletions included. */
  lemma StageEverything(files: FileSystem, r: Repo)
    ensures AddUpdate(files, AddAll(files, r)).index == files
    ensures AddUpdate(files, AddAll(files, r)).(index := r.index) == r
  {
  }

  /** `git commit -m msg`: records the index on the current branch; git
      refuses when there is nothing to commit. */
  function CommitIndex(r: Repo, id: string, msg: string): (res: Result<Repo>)
    ensures res.Err? <==> r.index == HeadTree(r)
    ensures res.Ok? ==> HeadCommit(res.value) == Some(Commit(id, r.index, msg, HeadCommit(r)))
    ensures res.Ok? ==> res.value.(branches := r.branches) == r
    ensures res.Ok? && HasKey(r.branches, r.head) ==> Keys(res.value.branches) == Keys(r.branches)
    ensures res.Ok? && !HasKey(r.branches, r.head) ==> Keys(res.value.branches) == Keys(r.branches) + [r.head]
  {
    if r.index == HeadTree(r) then Err("nothing to commit, working tree clean")
    else
      var c := Commit(id, r.index, msg, HeadCommit(r));
      var r' := r.(branches := Put(r.branches, r.head, c));
      assert HeadCommit(r') == Some(c) by { PutLookupSame(r.branches, r.head, c); }
      Ok(r')
  }

  // --- branches ---

  /** `git checkout -b name`: a new branch at the current commit, made current;
      the work tree and index stay as they are. */
  function CheckoutNewBranch(r: Repo, name: string): (res: Result<Repo>)
    ensures res.Err? <==> HasKey(r.branches, name)
    ensures res.Ok? ==> res.value.head == name && res.value.index == r.index
    ensures res.Ok? ==> HeadCommit(res.value) == HeadCommit(r)
    ensures res.Ok? ==> res.value.(branches := r.branches, head := r.head) == r
  {
    if HasKey(r.branches, name) then Err("fatal: A branch named '" + name + "' already exists.")
    else
      match HeadCommit(r)
      case None => Ok(r.(head := name))
      case Some(c) =>
        var r' := r.(branches := Put(r.branches, name, c), head := name);
        PutLookupSame(r.branches, name, c);
        Ok(r')
  }

  /** `git checkout -b name <remote>/<branch>`: a new branch at a remote-tracking
      branch, made current, with its tree checked out. */
  function CheckoutNewTracking(files: FileSystem, r: Repo, name: string, ref: string): (res: Result<(FileSystem, Repo)>)
    ensures res.Err? <==> HasKey(r.branches, name) || !HasKey(r.tracking, ref)
    ensures res.Ok? ==> res.value.1.head == name && HeadCommit(res.value.1) == Lookup(r.tracking, ref)
    ensures res.Ok? ==> res.value.0 == res.value.1.index == HeadTree(res.value.1)
    ensures res.Ok? ==> res.value.1.tracking == r.tracking && res.value.1.remotes == r.remotes
    ensures res.Ok? ==> res.value.1.stashes == r.stashes
  {
    if HasKey(r.branches, name) then Err("fatal: A branch named '" + name + "' already exists.")
    else
      match Lookup(r.tracking, ref)
      case None => Err("fatal: '" + ref + "' is not a commit and a branch '" + name + "' cannot be created from it")
      case Some(c) =>
        var r' := r.(branches := Put(r.branches, name, c), head := name, index := c.tree);
        PutLookupSame(r.branches, name, c);
        Ok((c.tree, r'))
  }

  /** `git checkout name` of an existing local branch: made current, with its
      tree in the work tree and the index. (The client only switches branches
      with a clean work tree.) */
  function Checkout(files: FileSystem, r: Repo, name: string): (res: Result<(FileSystem, Repo)>)
    ensures res.Err? <==> !HasKey(r.branches, name)
    ensures res.Ok? ==> res.value.1 == r.(head := name, index := HeadTree(res.value.1))
    ensures res.Ok? ==> res.value.0 == res.value.1.index && HeadCommit(res.value.1) == Lookup(r.branches, name)
  {
    match Lookup(r.branches, name)
    case None => Err("error: pathspec '" + name + "' did not match any file(s) known to git")
    case Some(c) => Ok((c.tree, r.(head := name, index := c.tree)))
  }

  /** `git reset --hard <remote>/<branch>`: the current branch moves to the
      remote-tracking branch and its tree replaces the work tree and index. */
  function ResetHard(files: FileSystem, r: Repo, ref: string): (res: Result<(FileSystem, Repo)>)
    ensures res.Err? <==> !HasKey(r.tracking, ref)
    ensures res.Ok? ==> res.value.1.head == r.head && HeadCommit(res.value.1) == Lookup(r.tracking, ref)
    ensures res.Ok? ==> IsClean(res.value.0, res.value.1)
    ensures res.Ok? ==> res.value.1.tracking == r.tracking && res.value.1.remotes == r.remotes
    ensures res.Ok? ==> res.value.1.stashes == r.stashes
  {
    match Lookup(r.tracking, ref)
    case None => Err("fatal: ambiguous argument '" + ref + "': unknown revision or path not in the working tree.")
    case Some(c) =>
      var r' := r.(branches := Put(r.branches, r.head, c), index := c.tree);
      PutLookupSame(r.branches, r.head, c);
      Ok((c.tree, r'))
  }

  /** `git stash save --include-untracked`: local changes, untracked files
      included, are put away and the work tree returns to the current commit.
      The flag says whether anything was saved. */
  function Stash(files: FileSystem, r: Repo): (res: Result<(FileSystem, Repo, bool)>)
    ensures res.Err? <==> !IsClean(files, r) && HeadCommit(r).None?
    ensures res.Ok? ==> IsClean(res.value.0, res.value.1)
    ensures res.Ok? ==> (res.value.2 <==> !IsClean(files, r))
    ensures res.Ok? ==> res.value.1.stashes == if res.value.2 then r.stashes + [files] else r.stashes
    ensures res.Ok? ==> res.value.1.(index := r.index, stashes := r.stashes) == r
  {
    if IsClean(files, r) then Ok((files, r, false))
    else if HeadCommit(r).None? then Err("You do not have the initial commit yet")
    else
      var t := HeadTree(r);
      Ok((t, r.(index := t, stashes := r.stashes + [files]), true))
  }

  // --- remotes ---

  /** Remote-tracking entries `<remote>/<branch>` for every branch of a server. */
  function TrackAll(acc: Assoc<string, Commit>, remote: string, bs: Assoc<string, Commit>): (r: Assoc<string, Commit>)
    decreases |bs|
  {
    if |bs| == 0 then acc else TrackAll(Put(acc, remote + "/" + bs[0].0, bs[0].1), remote, bs[1..])
  }

  /** After the fetch, `<remote>/<b>` is the server's tip of `b` when the server
      has one, and what it was before otherwise. */
  lemma {:induction false} TrackAllLookup(acc: Assoc<string, Commit>, remote: string, bs: Assoc<string, Commit>, b: string)
    ensures Lookup(TrackAll(acc, remote, bs), remote + "/" + b)
            == if HasKey(bs, b) then LastValue(bs, b) else Lookup(acc, remote + "/" + b)
    decreases |bs|
  {
    if |bs| > 0 {
      var ref0 := remote + "/" + bs[0].0;
      var acc' := Put(acc, ref0, bs[0].1);
      TrackAllLookup(acc', remote, bs[1..], b);
      if !HasKey(bs[1..], b) {
        if bs[0].0 == b {
          PutLookupSame(acc, ref0, bs[0].1);
        } else {
          assert ref0[|remote| + 1..] == bs[0].0 && (remote + "/" + b)[|remote| + 1..] == b;
          PutLookupOther(acc, ref0, bs[0].1, remote + "/" + b);
        }
      }
    }
  }

  /** `git fetch <remote>`: the remote-tracking branches take the server's tips. */
  function Fetch(r: Repo, servers: Servers, remote: string): (res: Result<Repo>)
    ensures res.Err? <==> !(HasKey(r.remotes, remote) && Lookup(r.remotes, remote).value in servers)
    ensures res.Ok? ==> res.value.(tracking := r.tracking) == r
  {
    match Lookup(r.remotes, remote)
    case None => Err("fatal: '" + remote + "' does not appear to be a git repository")
    case Some(url) =>
      if url !in servers then Err("fatal: repository '" + url + "' not found")
      else Ok(r.(tracking := TrackAll(r.tracking, remote, servers[url])))
  }

  /** `git fetch --all`: every remote in turn; the first failure stops it. */
  function FetchAll(r: Repo, servers: Servers, names: seq<string>): (res: Result<Repo>)
    ensures res.Ok? ==> res.value.(tracking := r.tracking) == r
    decreases |names|
  {
    if |names| == 0 then Ok(r)
    else
      var r' :- Fetch(r, servers, names[0]);
      FetchAll(r', servers, names[1..])
  }

  /** `git remote add name url`. */
  function RemoteAdd(r: Repo, name: string, url: string): (res: Result<Repo>)
    ensures res.Err? <==> HasKey(r.remotes, name)
    ensures res.Ok? ==> res.value == r.(remotes := r.remotes + [(name, url)])
  {
    if HasKey(r.remotes, name) then Err("fatal: remote " + name + " already exists.")
    else Ok(r.(remotes := r.remotes + [(name, url)]))
  }

  /** `git clone -o origin url dir`: the server's branches become origin-tracking branches,
      `master` (when the server has one) is checked out. */
  function Clone(servers: Servers, url: string): (res: Result<Workspace>)
    ensures res.Err? <==> url !in servers
    ensures res.Ok? ==> res.value.git.GitRepo? && res.value.git.repo.head == "master"
    ensures res.Ok? ==> res.value.git.repo.remotes == [("origin", url)]
    ensures res.Ok? ==> IsClean(res.value.files, res.value.git.repo)
    ensures res.Ok? ==> HeadCommit(res.value.git.repo) == Lookup(servers[url], "master")
  {
    if url !in servers then Err("fatal: repository '" + url + "' does not exist")
    else
      var bs := servers[url];
      var tracking := TrackAll([], "origin", bs);
      match Lookup(bs, "master")
      case None => Ok(Workspace(map[], GitRepo(Repo([], "master", map[], tracking, [("origin", url)], []))))
      case Some(c) =>
        var r := Repo([("master", c)], "master", c.tree, tracking, [("origin", url)], []);
        Ok(Workspace(c.tree, GitRepo(r)))
  }

  // --- what git prints ---

  /** `git branch`, as the command wrapper returns it. */
  function Branches(r: Repo): string {
    GitText.BranchListing(Keys(r.branches), r.head)
  }

  /** `git branch --all`: local branches, then `remotes/<remote>/<branch>`. */
  function AllBranches(r: Repo): string {
    Strip(Join(GitText.BranchLines(Keys(r.branches), r.head) + RemoteLines(Keys(r.tracking)), '\n'))
  }

  function RemoteLines(refs: seq<string>): (ls: seq<string>)
    ensures |ls| == |refs|
    ensures forall i :: 0 <= i < |refs| ==> ls[i] == "  remotes/" + refs[i]
  {
    if |refs| == 0 then [] else ["  remotes/" + refs[0]] + RemoteLines(refs[1..])
  }

  /** The `git branch` listing shows every local branch. */
  lemma BranchesShowBranch(r: Repo, b: string)
    requires HasKey(r.branches, b) && GitText.IsBranchName(b)
    ensures Contains(Branches(r), b)
  {
    var i :| 0 <= i < |r.branches| && r.branches[i].0 == b;
    var ls := GitText.BranchLines(Keys(r.branches), r.head);
    var pre := if b == r.head then "* " else "  ";
    assert ls[i] == pre + b;
    ContainsSelfAndExtensions(pre, b, b);
    JoinContains(ls, '\n', i);
    ContainsWithinFull(Join(ls, '\n'), ls[i], b);
    StripKeeps(Join(ls, '\n'), b);
  }

  /** The `git branch --all` listing shows every remote-tracking branch as
      `remotes/<remote>/<branch>`. */
  lemma AllBranchesShowTracking(r: Repo, ref: string)
    requires HasKey(r.tracking, ref) && GitText.IsBranchName(ref)
    ensures Contains(AllBranches(r), "remotes/" + ref)
  {
    var i :| 0 <= i < |r.tracking| && r.tracking[i].0 == ref;
    var local := GitText.BranchLines(Keys(r.branches), r.head);
    var ls := local + RemoteLines(Keys(r.tracking));
    var e := "remotes/" + ref;
    assert Contains(ls[|local| + i], e) by {
      assert ls[|local| + i] == "  " + e by {
        assert ls[|local| + i] == "  remotes/" + Keys(r.tracking)[i];
      }
      ContainsSelfAndExtensions("  ", e, e);
    }
    assert Contains(Join(ls, '\n'), e) by {
      JoinContains(ls, '\n', |local| + i);
      ContainsWithinFull(Join(ls, '\n'), ls[|local| + i], e);
    }
    assert e[0] == 'r' && e[|e| - 1] == ref[|ref| - 1];
    StripKeeps(Join(ls, '\n'), e);
  }

  /** `git remote -v`: each remote's fetch and push URL. */
  function RemoteListing(rs: Assoc<string, string>): string {
    Strip(Join(RemoteVerbose(rs), '\n'))
  }

  function RemoteVerbose(rs: Assoc<string, string>): seq<string> {
    if |rs| == 0 then []
    else [rs[0].0 + "\t" + rs[0].1 + " (fetch)", rs[0].0 + "\t" + rs[0].1 + " (push)"] + RemoteVerbose(rs[1..])
  }

  /** The hashes of a commit and its ancestors, newest first. */
  function History(c: Commit): (hs: seq<string>)
    ensures |hs| >= 1 && hs[0] == c.id
  {
    match c.parent
    case None => [c.id]
    case Some(p) => [c.id] + History(p)
  }

  /** `git log --pretty="%H"`: the hashes reachable from the current commit. */
  function Log(r: Repo): string {
    match HeadCommit(r)
    case None => ""
    case Some(c) => Strip(Join(History(c), '\n'))
  }

  // ---------------------------------------------------------------------
  // Copying and wiping
  // ---------------------------------------------------------------------

  /** Everything at or under `p`. */
  function Subtree(fs: FileSystem, p: Path): FileSystem {
    map q | q in fs && IsPrefix(p, q) :: fs[q]
  }

  /** The directories `mkdir_p` makes for the parent of `p`. */
  function Parents(p: Path): FileSystem {
    map q | q in ProperPrefixes(p) :: Dir
  }

  function ProperPrefixes(p: Path): (s: set<Path>)
    ensures forall q :: q in s <==> 0 < |q| < |p| && IsPrefix(q, p)
  {
    set i | 1 <= i < |p| :: p[..i]
  }

  /** One step of copy_files_to_dir: `cp_r(path, dest/<parent of path>)` after
      making the parent directories that are missing (`mkdir_p` leaves existing
      ones alone). Copying `.git` copies the repository. */
  function CopyOne(src: Workspace, dest: Workspace, raw: string): (r: Result<Workspace>)
    ensures r.Err? <==> !Exists(src, raw)
  {
    var p := PathOf(raw);
    if p == [".git"] then
      if src.git.NoGitDir? then Err("No such file or directory @ rb_sysopen - " + raw)
      else Ok(dest.(git := src.git))
    else if p != [] && p !in src.files then Err("No such file or directory @ rb_sysopen - " + raw)
    else Ok(dest.(files := Parents(p) + dest.files + Subtree(src.files, p)))
  }

  /** copy_files_to_dir over a whole path list, in order; a missing path stops it. */
  function CopyAll(src: Workspace, dest: Workspace, paths: seq<string>): (r: Result<Workspace>)
    ensures r.Err? <==> exists i :: 0 <= i < |paths| && !Exists(src, paths[i])
    decreases |paths|
  {
    if |paths| == 0 then Ok(dest)
    else
      match CopyOne(src, dest, paths[0])
      case Err(e) => Err(e)
      case Ok(d) =>
        var r := CopyAll(src, d, paths[1..]);
        assert r.Err? <==> exists i :: 1 <= i < |paths| && !Exists(src, paths[i]) by {
          if r.Err? {
            var i :| 0 <= i < |paths[1..]| && !Exists(src, paths[1..][i]);
            assert !Exists(src, paths[i + 1]);
          }
          if exists i :: 1 <= i < |paths| && !Exists(src, paths[i]) {
            var i :| 1 <= i < |paths| && !Exists(src, paths[i]);
            assert !Exists(src, paths[1..][i - 1]);
          }
        }
        r
  }

  /** Some listed path (other than `.git`) is at or above `q`. */
  predicate Listed(paths: seq<string>, q: Path)
    decreases |paths|
  {
    |paths| > 0 &&
    ((PathOf(paths[0]) != [".git"] && IsPrefix(PathOf(paths[0]), q)) || Listed(paths[1..], q))
  }

  /** `q` is a directory made on the way to a listed path. */
  predicate ParentOfListed(paths: seq<string>, q: Path)
    decreases |paths|
  {
    |paths| > 0 &&
    ((PathOf(paths[0]) != [".git"] && q in ProperPrefixes(PathOf(paths[0]))) || ParentOfListed(paths[1..], q))
  }

  predicate ListsGit(paths: seq<string>)
    decreases |paths|
  {
    |paths| > 0 && (PathOf(paths[0]) == [".git"] || ListsGit(paths[1..]))
  }

  /** copy_files_to_dir places exactly the listed paths (with everything under
      them) and their parent directories next to what the destination held. */
  lemma {:induction false} CopyAllPaths(src: Workspace, dest: Workspace, paths: seq<string>, q: Path)
    requires CopyAll(src, dest, paths).Ok?
    ensures q in CopyAll(src, dest, paths).value.files <==>
              q in dest.files || (Listed(paths, q) && q in src.files) || ParentOfListed(paths, q)
    decreases |paths|
  {
    if |paths| > 0 {
      var d1 := CopyOne(src, dest, paths[0]).value;
      CopyAllPaths(src, d1, paths[1..], q);
    }
  }

  /** What it places under a listed path is the source's content there. */
  lemma {:induction false} CopyAllListedValues(src: Workspace, dest: Workspace, paths: seq<string>, q: Path)
    requires CopyAll(src, dest, paths).Ok?
    requires Listed(paths, q) && q in src.files
    ensures q in CopyAll(src, dest, paths).value.files
    ensures CopyAll(src, dest, paths).value.files[q] == src.files[q]
    decreases |paths|
  {
    var d1 := CopyOne(src, dest, paths[0]).value;
    CopyAllPaths(src, d1, paths[1..], q);
    if Listed(paths[1..], q) {
      CopyAllListedValues(src, d1, paths[1..], q);
    } else {
      CopyAllOtherValues(src, d1, paths[1..], q);
    }
  }

  /** What it does not touch keeps the destination's content. */
  lemma {:induction false} CopyAllOtherValues(src: Workspace, dest: Workspace, paths: seq<string>, q: Path)
    requires CopyAll(src, dest, paths).Ok?
    requires q in dest.files && !Listed(paths, q)
    ensures q in CopyAll(src, dest, paths).value.files
    ensures CopyAll(src, dest, paths).value.files[q] == dest.files[q]
    decreases |paths|
  {
    if |paths| > 0 {
      var d1 := CopyOne(src, dest, paths[0]).value;
      CopyAllOtherValues(src, d1, paths[1..], q);
    }
  }

  /** The copy carries the repository exactly when `.git` is listed. */
  lemma {:induction false} CopyAllGit(src: Workspace, dest: Workspace, paths: seq<string>)
    requires CopyAll(src, dest, paths).Ok?
    ensures CopyAll(src, dest, paths).value.git == if ListsGit(paths) then src.git else dest.git
    decreases |paths|
  {
    if |paths| > 0 {
      var d1 := CopyOne(src, dest, paths[0]).value;
      CopyAllGit(src, d1, paths[1..]);
    }
  }

  /** rm_rf of the glob `*` inside the directory: the glob skips names that start with a dot,
      so only those survive. */
  function WipeVisible(fs: FileSystem): (r: FileSystem)
    ensures forall q :: q in r <==> q in fs && |q| > 0 && StartsWith(q[0], ".")
    ensures forall q :: q in r ==> r[q] == fs[q]
  {
    map q | q in fs && |q| > 0 && StartsWith(q[0], ".") :: fs[q]
  }

  /** The part of a directory a glob `*` shows: paths whose first component
      does not start with a dot. */
  predicate Visible(q: Path) {
    |q| > 0 && !StartsWith(q[0], ".")
  }
}
