/** The local-run controller: whether AWS keys are available, and the
    installation that precedes every local command (Java checked, Pig
    installed, the Python checks in order, Jython, Sqoop when asked, the
    install directory's README and the project's `.gitignore`). */
module LocalController {
  import opened Common
  import opened LocalFiles
  import opened InstallUtil
  import opened PigVersions
  import LocalParams

  // ---------------------------------------------------------------------
  // verify_aws_keys, set_aws_keys
  // ---------------------------------------------------------------------

  const IgnoreAwsKeysVariable := "MORTAR_IGNORE_AWS_KEYS"

  /** verify_aws_keys: both keys are set, or the user asked to go without
      them. */
  function VerifyAwsKeys(env: Env): (ok: bool)
    ensures ok <==> (LocalParams.AccessKey in env && LocalParams.SecretKey in env) || IgnoreAwsKeysVariable in env
  {
    if !(LocalParams.AccessKey in env && LocalParams.SecretKey in env) then IgnoreAwsKeysVariable in env
    else true
  }

  /** set_aws_keys: both keys written into the environment. */
  function SetAwsKeys(env: Env, accessKey: string, secretKey: string): (e: Env)
    ensures e.Keys == env.Keys + {LocalParams.AccessKey, LocalParams.SecretKey}
    ensures e[LocalParams.AccessKey] == accessKey && e[LocalParams.SecretKey] == secretKey
    ensures forall k :: k in env && k != LocalParams.AccessKey && k != LocalParams.SecretKey ==> e[k] == env[k]
  {
    env[LocalParams.AccessKey := accessKey][LocalParams.SecretKey := secretKey]
  }

  /** Once the keys are set verify_aws_keys passes, whatever it said before. */
  lemma KeysSetPassCheck(env: Env, accessKey: string, secretKey: string)
    ensures VerifyAwsKeys(SetAwsKeys(env, accessKey, secretKey))
  {
  }

  // ---------------------------------------------------------------------
  // write_local_readme
  // ---------------------------------------------------------------------

  const ReadmeText :=
    "This directory is used by Mortar to install all of the necessary dependencies for\n"
    + "running mortar local commands.  You should not modify these files/directories as\n"
    + "they may be removed or updated at any time.\n"
    + "\n"
    + "For additional Java dependencies you should place your jars in the root lib folder\n"
    + "of your project.  These jars will be automatically registered and \n"
    + "available for use in your Pig scripts and UDFs.\n"
    + "\n"
    + "You can specify additional Python dependencies in the requirements.txt file in \n"
    + "the root of your project.\n"

  function ReadmePath(env: Env, root: string): string {
    FileJoin(LocalInstallDirectory(env, root), "README")
  }

  /** The files once the README is in place: written when nothing exists at
      its path (File.exists? is true of a directory too), kept otherwise. */
  function ReadmeWritten(files: map<string, string>, dirs: set<string>, path: string): (f: map<string, string>)
  {
    if path in files || path in dirs then files else files[path := ReadmeText]
  }

  /** An existing README is never overwritten, a missing one is created, and
      writing it a second time changes nothing. */
  lemma ReadmeOnlyIfAbsent(files: map<string, string>, dirs: set<string>, path: string)
    ensures path in files ==> ReadmeWritten(files, dirs, path) == files
    ensures path !in files && path !in dirs ==> ReadmeWritten(files, dirs, path) == files[path := ReadmeText]
    ensures ReadmeWritten(ReadmeWritten(files, dirs, path), dirs, path) == ReadmeWritten(files, dirs, path)
  {
  }

  method WriteLocalReadme(fs: FileTree, env: Env, root: string)
    modifies fs
    ensures fs.files == ReadmeWritten(old(fs.files), old(fs.dirs), ReadmePath(env, root))
    ensures fs.dirs == old(fs.dirs)
  {
    var path := ReadmePath(env, root);
    if !(path in fs.files || path in fs.dirs) {
      fs.Write(path, ReadmeText, false);
      assert "" + ReadmeText == ReadmeText;
    }
  }

  // ---------------------------------------------------------------------
  // ensure_local_install_dirs_in_gitignore
  // ---------------------------------------------------------------------

  /** The entries every project's `.gitignore` gets, in the order they are
      appended. */
  const GitignoreEntries: seq<string> := [LocalInstallDirectoryName, "logs", "illustrate-output"]

  /** local_project_gitignore. */
  function GitignorePath(root: string): string {
    root + "/.gitignore"
  }

  predicate EndsWithNewline(s: string) {
    |s| > 0 && s[|s| - 1] == '\n'
  }

  /** `puts ""` when the file does not already end a line. */
  function LineEnd(contents: string): string {
    if EndsWithNewline(contents) then "" else "\n"
  }

  /** `puts entry` unless the original contents mention it anywhere. */
  function Entry(contents: string, entry: string): string {
    if Contains(contents, entry) then "" else entry + "\n"
  }

  /** The lines appended for `entries`, each one the original contents do
      not mention. */
  function Missing(contents: string, entries: seq<string>): string {
    if |entries| == 0 then "" else Entry(contents, entries[0]) + Missing(contents, entries[1..])
  }

  /** The file after the update: the old contents, a line end if they
      lacked one, then the entries they did not mention. */
  function Updated(contents: string, entries: seq<string>): string {
    contents + LineEnd(contents) + Missing(contents, entries)
  }

  function GitignoreUpdated(contents: string): string {
    Updated(contents, GitignoreEntries)
  }

  /** An entry is mentioned once its line is written: it was there before,
      or it was appended. */
  lemma EntryMentioned(contents: string, pre: string, entry: string)
    requires StartsWith(pre, contents)
    ensures Contains(pre + Entry(contents, entry), entry)
  {
    if Contains(contents, entry) {
      assert pre == contents + pre[|contents|..];
      ContainsSelfAndExtensions(contents, pre[|contents|..], entry);
      MentionKept(pre, "", entry);
    } else {
      ContainsSelfAndExtensions(entry, "\n", entry);
      ContainsSelfAndExtensions(pre, entry + "\n", entry);
    }
  }

  /** Appending loses neither a mention nor a prefix. */
  lemma MentionKept(a: string, b: string, entry: string)
    ensures Contains(a, entry) ==> Contains(a + b, entry)
    ensures forall p :: StartsWith(a, p) ==> StartsWith(a + b, p)
  {
    ContainsSelfAndExtensions(a, b, entry);
    forall p | StartsWith(a, p)
      ensures StartsWith(a + b, p)
    {
      assert (a + b)[..|p|] == a[..|p|];
    }
  }

  /** Whatever follows `pre`, the appended lines mention every entry. */
  lemma {:induction false} MissingMentions(contents: string, pre: string, entries: seq<string>)
    requires StartsWith(pre, contents)
    ensures forall i :: 0 <= i < |entries| ==> Contains(pre + Missing(contents, entries), entries[i])
    decreases |entries|
  {
    if |entries| > 0 {
      var e := Entry(contents, entries[0]);
      var rest := Missing(contents, entries[1..]);
      assert pre + Missing(contents, entries) == (pre + e) + rest;
      EntryMentioned(contents, pre, entries[0]);
      MentionKept(pre + e, rest, entries[0]);
      MentionKept(pre, e, entries[0]);
      MissingMentions(contents, pre + e, entries[1..]);
      forall i | 1 <= i < |entries|
        ensures Contains(pre + Missing(contents, entries), entries[i])
      {
        assert entries[i] == entries[1..][i - 1];
      }
    }
  }

  lemma MissingThree(contents: string, es: seq<string>)
    requires |es| == 3
    ensures Missing(contents, es) == Entry(contents, es[0]) + Entry(contents, es[1]) + Entry(contents, es[2])
  {
    assert Missing(contents, es) == Entry(contents, es[0]) + Missing(contents, es[1..]);
    assert Missing(contents, es[1..]) == Entry(contents, es[1]) + Missing(contents, es[2..]);
    assert Missing(contents, es[2..]) == Entry(contents, es[2]) + Missing(contents, es[3..]);
    assert Missing(contents, es[3..]) == "";
  }

  /** The appended lines are whole lines. */
  lemma {:induction false} MissingLines(contents: string, entries: seq<string>)
    ensures Missing(contents, entries) == "" || EndsWithNewline(Missing(contents, entries))
    decreases |entries|
  {
    if |entries| > 0 {
      MissingLines(contents, entries[1..]);
    }
  }

  /** Nothing is appended exactly when every entry is already mentioned. */
  lemma {:induction false} MissingNothing(contents: string, entries: seq<string>)
    ensures Missing(contents, entries) == "" <==> forall i :: 0 <= i < |entries| ==> Contains(contents, entries[i])
    decreases |entries|
  {
    if |entries| > 0 {
      MissingNothing(contents, entries[1..]);
      assert forall i :: 1 <= i < |entries| ==> entries[i] == entries[1..][i - 1];
    }
  }

  /** The update keeps the old contents as a prefix, ends the file with a
      line break, and leaves every entry mentioned. */
  lemma UpdateShape(contents: string, entries: seq<string>)
    ensures var u := Updated(contents, entries);
      && StartsWith(u, contents) && EndsWithNewline(u)
      && forall i :: 0 <= i < |entries| ==> Contains(u, entries[i])
  {
    var c0 := contents + LineEnd(contents);
    assert StartsWith(c0, contents) by {
      assert c0[..|contents|] == contents;
    }
    MissingMentions(contents, c0, entries);
    MissingLines(contents, entries);
    MentionKept(c0, Missing(contents, entries), "");
  }

  /** The update changes nothing exactly when the file already ends a line
      and mentions every entry. */
  lemma UnchangedIff(contents: string, entries: seq<string>)
    ensures Updated(contents, entries) == contents
        <==> EndsWithNewline(contents) && forall i :: 0 <= i < |entries| ==> Contains(contents, entries[i])
  {
    MissingNothing(contents, entries);
    if Updated(contents, entries) == contents {
      assert |LineEnd(contents)| + |Missing(contents, entries)| == 0;
    }
  }

  /** Updating a second time changes nothing. */
  lemma UpdateIdempotent(contents: string, entries: seq<string>)
    ensures Updated(Updated(contents, entries), entries) == Updated(contents, entries)
  {
    UpdateShape(contents, entries);
    UnchangedIff(Updated(contents, entries), entries);
  }

  /** The files after the update: only `.gitignore` changes, and only when
      it exists. */
  function GitignoreApplied(files: map<string, string>, root: string): (f: map<string, string>)
    ensures f.Keys == files.Keys
  {
    var p := GitignorePath(root);
    if p in files then files[p := GitignoreUpdated(files[p])] else files
  }

  /** With no `.gitignore` nothing is written; otherwise the old contents
      stay as a prefix, every entry ends up mentioned, and running the
      update twice is running it once. */
  lemma GitignoreAppliedTwice(files: map<string, string>, root: string)
    ensures GitignorePath(root) !in files ==> GitignoreApplied(files, root) == files
    ensures GitignorePath(root) in files ==>
      var u := GitignoreApplied(files, root)[GitignorePath(root)];
      && StartsWith(u, files[GitignorePath(root)]) && EndsWithNewline(u)
      && forall i :: 0 <= i < |GitignoreEntries| ==> Contains(u, GitignoreEntries[i])
    ensures GitignoreApplied(GitignoreApplied(files, root), root) == GitignoreApplied(files, root)
  {
    var p := GitignorePath(root);
    if p in files {
      UpdateShape(files[p], GitignoreEntries);
      UpdateIdempotent(files[p], GitignoreEntries);
    }
  }

  /** ensure_local_install_dirs_in_gitignore: appends to the open file as
      the checks on its original contents dictate. */
  method EnsureLocalInstallDirsInGitignore(fs: FileTree, root: string)
    modifies fs
    ensures fs.files == GitignoreApplied(old(fs.files), root)
    ensures fs.dirs == old(fs.dirs)
  {
    var p := GitignorePath(root);
    if p in fs.files {
      var contents := fs.files[p];
      if !EndsWithNewline(contents) {
        fs.Write(p, "\n", true);
      }
      AppendMissing(fs, p, contents, GitignoreEntries);
    }
  }

  /** The three `puts` after the line end, each decided on the original
      contents. */
  method AppendMissing(fs: FileTree, p: string, contents: string, es: seq<string>)
    requires |es| == 3 && p in fs.files && fs.files[p] == contents + LineEnd(contents)
    modifies fs
    ensures fs.files == old(fs.files)[p := Updated(contents, es)]
    ensures fs.dirs == old(fs.dirs)
  {
    AppendEntry(fs, p, contents, contents + LineEnd(contents), es[0]);
    AppendEntry(fs, p, contents, contents + LineEnd(contents) + Entry(contents, es[0]), es[1]);
    AppendEntry(fs, p, contents, contents + LineEnd(contents) + Entry(contents, es[0]) + Entry(contents, es[1]),
                es[2]);
    MissingThree(contents, es);
    assert Updated(contents, es)
        == contents + LineEnd(contents) + Entry(contents, es[0]) + Entry(contents, es[1]) + Entry(contents, es[2]);
  }

  /** `puts entry` on the open file unless its original contents mention
      the entry. */
  method AppendEntry(fs: FileTree, p: string, contents: string, sofar: string, entry: string)
    requires p in fs.files && fs.files[p] == sofar
    modifies fs
    ensures fs.files == old(fs.files)[p := sofar + Entry(contents, entry)]
    ensures fs.dirs == old(fs.dirs)
  {
    if !Contains(contents, entry) {
      fs.Write(p, entry + "\n", true);
    } else {
      assert sofar + "" == sofar;
    }
  }

  // ---------------------------------------------------------------------
  // install_and_configure
  // ---------------------------------------------------------------------

  /** Why the installation stopped. */
  datatype Failure = NoJava | NoPython | NoVirtualenv | NoPythonEnvironment(pipErrorLogPath: string)

  /** The error each failure raises. */
  function FailureMessage(f: Failure): string {
    match f
    case NoJava =>
      "A suitable java installation could not be found.  If you already have java installed\n"
      + "please set your JAVA_HOME environment variable before continuing.  Otherwise, a\n"
      + "suitable java installation will need to be added to your local system.\n"
      + "\n"
      + "Installing Java\n"
      + "On OSX run `javac` from the command line.  This will intiate the installation.  For\n"
      + "Linux systems please consult the documentation on your relevant package manager.\n"
    case NoPython =>
      "A suitable python installation could not be located.  Please ensure you have python 2.6+\n"
      + "installed on your local system.\n"
    case NoVirtualenv =>
      "A suitable Python installation was found, but it is required that virtualenv be installed\n"
      + "as well.  You can install it with pip, or download it directly from:\n"
      + "https://pypi.python.org/pypi/virtualenv\n"
    case NoPythonEnvironment(log) =>
      "\nUnable to setup a python environment with your dependencies, see " + log + " for more details"
  }

  /** What the checks on the local machine answer: a Java install, a
      Python install (found or installed), virtualenv, and the project's
      Python environment set up, with where pip logs its errors. */
  datatype Probe = Probe(java: bool, python: bool, virtualenv: bool, pythonEnvironment: bool,
                         pipErrorLogPath: string)

  /** A dependency installed or updated, in the order it happened. */
  datatype Installed = PigInstalled(version: PigVersion, command: Option<string>) | JythonInstalled | SqoopInstalled

  datatype Configured = Configured(failure: Option<Failure>, installed: seq<Installed>, files: map<string, string>)

  /** The first of the Python checks to fail, in the order they run. */
  function PythonFailure(probe: Probe): (f: Option<Failure>)
    ensures f.None? <==> probe.python && probe.virtualenv && probe.pythonEnvironment
  {
    if !probe.python then Some(NoPython)
    else if !probe.virtualenv then Some(NoVirtualenv)
    else if !probe.pythonEnvironment then Some(NoPythonEnvironment(probe.pipErrorLogPath))
    else None
  }

  /** install_and_configure: Java must be there before anything is
      installed; Pig (0.9 when no version is given) comes next, then the
      Python checks stop at the first failure; only when all pass are Jython
      and, if asked, Sqoop installed and the README and `.gitignore`
      written. */
  function Configure(files: map<string, string>, dirs: set<string>, env: Env, root: string, probe: Probe,
                     pigVersion: Option<PigVersion>, command: Option<string>, installSqoop: bool)
    : (c: Configured)
    ensures !probe.java ==> c == Configured(Some(NoJava), [], files)
    ensures probe.java ==>
      && |c.installed| > 0
      && c.installed[0] == PigInstalled(if pigVersion.None? then Pig09 else pigVersion.value, command)
    ensures c.failure.None? <==> probe.java && probe.python && probe.virtualenv && probe.pythonEnvironment
    ensures probe.java && !probe.python ==> c.failure == Some(NoPython)
    ensures probe.java && probe.python && !probe.virtualenv ==> c.failure == Some(NoVirtualenv)
    ensures probe.java && probe.python && probe.virtualenv && !probe.pythonEnvironment ==>
      c.failure == Some(NoPythonEnvironment(probe.pipErrorLogPath))
    ensures c.failure.Some? ==> c.files == files && |c.installed| <= 1
    ensures JythonInstalled in c.installed <==> c.failure.None?
    ensures SqoopInstalled in c.installed <==> c.failure.None? && installSqoop
    ensures c.failure.None? ==> c.files == GitignoreApplied(ReadmeWritten(files, dirs, ReadmePath(env, root)), root)
  {
    var version := if pigVersion.None? then Pig09 else pigVersion.value;
    if !probe.java then Configured(Some(NoJava), [], files)
    else
      var pig := [PigInstalled(version, command)];
      match PythonFailure(probe)
      case Some(f) => Configured(Some(f), pig, files)
      case None =>
        var installed := pig + [JythonInstalled] + (if installSqoop then [SqoopInstalled] else []);
        Configured(None, installed, GitignoreApplied(ReadmeWritten(files, dirs, ReadmePath(env, root)), root))
  }

  /** install_and_configure: the steps, then the error of the one that
      failed. */
  method InstallAndConfigure(fs: FileTree, env: Env, root: string, probe: Probe, pigVersion: Option<PigVersion>,
                             command: Option<string>, installSqoop: bool)
    returns (res: Result<()>, installed: seq<Installed>)
    modifies fs
    ensures var c := Configure(old(fs.files), old(fs.dirs), env, root, probe, pigVersion, command, installSqoop);
      && installed == c.installed && fs.files == c.files
      && res == if c.failure.None? then Ok(()) else Err(FailureMessage(c.failure.value))
    ensures fs.dirs == old(fs.dirs)
  {
    var failure;
    failure, installed := InstallSteps(fs, env, root, probe, pigVersion, command, installSqoop);
    res := if failure.None? then Ok(()) else Err(FailureMessage(failure.value));
  }

  method InstallSteps(fs: FileTree, env: Env, root: string, probe: Probe, pigVersion: Option<PigVersion>,
                      command: Option<string>, installSqoop: bool)
    returns (failure: Option<Failure>, installed: seq<Installed>)
    modifies fs
    ensures Configured(failure, installed, fs.files)
         == Configure(old(fs.files), old(fs.dirs), env, root, probe, pigVersion, command, installSqoop)
    ensures fs.dirs == old(fs.dirs)
  {
    var version := pigVersion;
    if version.None? {
      version := Some(Pig09);
    }
    ghost var c := Configure(fs.files, fs.dirs, env, root, probe, pigVersion, command, installSqoop);
    installed := [];
    if !probe.java {
      return Some(NoJava), installed;
    }
    installed := installed + [PigInstalled(version.value, command)];
    failure := PythonChecks(probe);
    if failure.Some? {
      assert c == Configured(failure, installed, fs.files);
      return failure, installed;
    }
    installed := FinishInstall(fs, env, root, installed, installSqoop);
    assert c == Configured(None, installed, fs.files);
  }

  /** check_or_install, check_virtualenv and
      setup_project_python_environment, stopping at the first that fails. */
  method PythonChecks(probe: Probe) returns (failure: Option<Failure>)
    ensures failure == PythonFailure(probe)
  {
    if !probe.python {
      return Some(NoPython);
    }
    if !probe.virtualenv {
      return Some(NoVirtualenv);
    }
    if !probe.pythonEnvironment {
      return Some(NoPythonEnvironment(probe.pipErrorLogPath));
    }
    return None;
  }

  /** Once the checks pass: Jython, Sqoop when asked, the README and the
      `.gitignore`. */
  method FinishInstall(fs: FileTree, env: Env, root: string, before: seq<Installed>, installSqoop: bool)
    returns (installed: seq<Installed>)
    modifies fs
    ensures installed == before + [JythonInstalled] + (if installSqoop then [SqoopInstalled] else [])
    ensures fs.files == GitignoreApplied(ReadmeWritten(old(fs.files), old(fs.dirs), ReadmePath(env, root)), root)
    ensures fs.dirs == old(fs.dirs)
  {
    installed := before + [JythonInstalled];
    if installSqoop {
      installed := installed + [SqoopInstalled];
    }
    WriteLocalReadme(fs, env, root);
    EnsureLocalInstallDirsInGitignore(fs, root);
  }
}
