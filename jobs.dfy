/** `mortar jobs:run`: which script runs, on which cluster, from which commit,
    and what is sent to the API to start the job; and the progress bar
    `jobs:status --poll` draws. */
module JobsCommand {
  import opened Common
  import opened CommandBase
  import PigVersions

  const ClusterIdKey := "clusterid"
  const ClusterSizeKey := "clustersize"
  const SingleJobKey := "singlejobcluster"
  const PermanentKey := "permanentcluster"
  const SpotKey := "spot"
  const DoNotNotifyKey := "donotnotify"
  const ProjectKey := "project"
  const BranchKey := "branch"
  const PigVersionKey := "pigversion"
  const ParameterKey := "parameter"

  /** Ruby truthiness of an option: it is given and is not `false`. */
  predicate Truthy(opts: Options, k: string) {
    HasKey(opts, k) && Lookup(opts, k) != Some(Bool(false))
  }

  /** A value's `to_s`. */
  function Text(v: Value): string {
    match v
    case Str(s) => s
    case Bool(b) => if b then "true" else "false"
    case Int(n) => NatToString(n)
    case Strs(ss) => Inspect(ss)
  }

  // ---------------------------------------------------------------------
  // The default cluster
  // ---------------------------------------------------------------------

  /** A cluster as `get_clusters` lists it; `runningJobs` is the length of its
      `running_jobs` list, None when the record has no such key. */
  datatype Cluster = Cluster(clusterId: string, size: int, running: bool, runningJobs: Option<nat>)

  /** Free: RUNNING and running no job. */
  predicate Free(c: Cluster) {
    c.runningJobs == Some(0) && c.running
  }

  /** The index `select` then `max_by` picks: the first of the largest free
      clusters. */
  function LargestFree(cs: seq<Cluster>): (r: Option<nat>)
    ensures r.None? <==> forall i :: 0 <= i < |cs| ==> !Free(cs[i])
    ensures r.Some? ==>
      && r.value < |cs| && Free(cs[r.value])
      && (forall j :: 0 <= j < |cs| && Free(cs[j]) ==> cs[j].size <= cs[r.value].size)
      && (forall j :: 0 <= j < r.value && Free(cs[j]) ==> cs[j].size < cs[r.value].size)
    decreases |cs|
  {
    if |cs| == 0 then None
    else
      var init := cs[..|cs| - 1];
      var best := LargestFree(init);
      assert forall j :: 0 <= j < |init| ==> init[j] == cs[j];
      var last := cs[|cs| - 1];
      if Free(last) && (best.None? || last.size > cs[best.value].size) then Some(|cs| - 1)
      else best
  }

  /** Calling `length` on a missing `running_jobs`. */
  const NilLengthMessage := "undefined method `length' for nil:NilClass"

  /** The largest free cluster, or none; every record is read, so one without
      `running_jobs` fails the whole choice. */
  function FreeClusterChoice(cs: seq<Cluster>): (r: Result<Option<Cluster>>)
    ensures r.Err? <==> exists i :: 0 <= i < |cs| && cs[i].runningJobs.None?
    ensures r.Err? ==> r.msg == NilLengthMessage
    ensures r.Ok? ==> (r.value.None? <==> forall i :: 0 <= i < |cs| ==> !Free(cs[i]))
    ensures r.Ok? && r.value.Some? ==> LargestFree(cs).Some? && r.value.value == cs[LargestFree(cs).value]
  {
    if exists i :: 0 <= i < |cs| && cs[i].runningJobs.None? then Err(NilLengthMessage)
    else
      var i := LargestFree(cs);
      if i.Some? then Ok(Some(cs[i.value])) else Ok(None)
  }

  /** Neither `--clusterid` nor `--clustersize`: the job goes to the largest
      free cluster, else to a new cluster of size 2.  Either way the options
      then name a cluster. */
  function DefaultCluster(opts: Options, cs: seq<Cluster>): (r: Result<Options>)
    ensures Truthy(opts, ClusterIdKey) || Truthy(opts, ClusterSizeKey) ==> r == Ok(opts)
    ensures r.Ok? ==> Truthy(r.value, ClusterIdKey) || Truthy(r.value, ClusterSizeKey)
    ensures r.Err? <==> !(Truthy(opts, ClusterIdKey) || Truthy(opts, ClusterSizeKey)) && FreeClusterChoice(cs).Err?
  {
    if Truthy(opts, ClusterIdKey) || Truthy(opts, ClusterSizeKey) then Ok(opts)
    else
      match FreeClusterChoice(cs)
      case Err(e) => Err(e)
      case Ok(c) =>
        if c.None? then
          PutLookupSame(opts, ClusterSizeKey, Int(2));
          Ok(Put(opts, ClusterSizeKey, Int(2)))
        else
          PutLookupSame(opts, ClusterIdKey, Str(c.value.clusterId));
          Ok(Put(opts, ClusterIdKey, Str(c.value.clusterId)))
  }

  /** What the default is: the first of the largest free clusters by id, or
      size 2 when no cluster is free; no other option changes. */
  lemma DefaultClusterChoice(opts: Options, cs: seq<Cluster>, k: string)
    requires !(Truthy(opts, ClusterIdKey) || Truthy(opts, ClusterSizeKey))
    requires forall i :: 0 <= i < |cs| ==> cs[i].runningJobs.Some?
    ensures DefaultCluster(opts, cs).Ok?
    ensures var o := DefaultCluster(opts, cs).value;
      && ((forall i :: 0 <= i < |cs| ==> !Free(cs[i])) ==> Lookup(o, ClusterSizeKey) == Some(Int(2)))
      && (forall i :: 0 <= i < |cs| && Free(cs[i]) && (forall j :: 0 <= j < |cs| && Free(cs[j]) ==> cs[j].size <= cs[i].size)
                                     && (forall j :: 0 <= j < i && Free(cs[j]) ==> cs[j].size < cs[i].size)
            ==> Lookup(o, ClusterIdKey) == Some(Str(cs[i].clusterId)))
      && (k != ClusterIdKey && k != ClusterSizeKey ==> Lookup(o, k) == Lookup(opts, k))
  {
    var c := FreeClusterChoice(cs).value;
    if c.None? {
      PutLookupSame(opts, ClusterSizeKey, Int(2));
      if k != ClusterSizeKey {
        PutLookupOther(opts, ClusterSizeKey, Int(2), k);
      }
    } else {
      var b := LargestFree(cs).value;
      PutLookupSame(opts, ClusterIdKey, Str(cs[b].clusterId));
      if k != ClusterIdKey {
        PutLookupOther(opts, ClusterIdKey, Str(cs[b].clusterId), k);
      }
      forall i | 0 <= i < |cs| && Free(cs[i]) && (forall j :: 0 <= j < |cs| && Free(cs[j]) ==> cs[j].size <= cs[i].size)
                && (forall j :: 0 <= j < i && Free(cs[j]) ==> cs[j].size < cs[i].size)
        ensures i == b
      {
        assert cs[b].size <= cs[i].size && cs[i].size <= cs[b].size;
      }
    }
  }

  // ---------------------------------------------------------------------
  // Option rules
  // ---------------------------------------------------------------------

  /** The options a job on an existing cluster must not carry, in the order
      they are checked. */
  const ExistingClusterOptions: seq<string> := [ClusterSizeKey, SingleJobKey, PermanentKey]

  /** The first of `keys` that is given. */
  function FirstGiven(opts: Options, keys: seq<string>): (r: Option<nat>)
    ensures r.None? <==> forall i :: 0 <= i < |keys| ==> !HasKey(opts, keys[i])
    ensures r.Some? ==>
      && r.value < |keys| && HasKey(opts, keys[r.value])
      && forall j :: 0 <= j < r.value ==> !HasKey(opts, keys[j])
    decreases |keys|
  {
    if |keys| == 0 then None
    else if HasKey(opts, keys[0]) then Some(0)
    else
      var rest := FirstGiven(opts, keys[1..]);
      assert forall j :: 1 <= j < |keys| ==> keys[j] == keys[1..][j - 1];
      if rest.Some? then Some(rest.value + 1) else None
  }

  const ConflictPrefix := "Option "
  const ConflictSuffix := " cannot be set when running a job on an existing cluster (with --clusterid option)"

  function ConflictMessage(opt: string): string {
    ConflictPrefix + opt + ConflictSuffix
  }

  /** `--clusterid` excludes a cluster size and both cluster-type flags; the
      error names the first of them given. */
  function CheckExistingCluster(opts: Options): (r: Result<()>)
    ensures r.Err? <==> Truthy(opts, ClusterIdKey)
                        && exists i :: 0 <= i < |ExistingClusterOptions| && HasKey(opts, ExistingClusterOptions[i])
    ensures r.Err? ==>
      && FirstGiven(opts, ExistingClusterOptions).Some?
      && r.msg == ConflictMessage(ExistingClusterOptions[FirstGiven(opts, ExistingClusterOptions).value])
  {
    var first := FirstGiven(opts, ExistingClusterOptions);
    if Truthy(opts, ClusterIdKey) && first.Some? then Err(ConflictMessage(ExistingClusterOptions[first.value]))
    else Ok(())
  }

  datatype ClusterType = SingleJob | Permanent | Persistent

  const BothTypesMessage := "Cannot declare cluster as both --singlejobcluster and --permanentcluster"

  /** The type of a new cluster: `-1` single job, `-2` permanent, neither
      persistent; both is an error. */
  function ClusterTypeOf(opts: Options): (r: Result<ClusterType>)
    ensures r.Err? <==> Truthy(opts, SingleJobKey) && Truthy(opts, PermanentKey)
    ensures r.Err? ==> r.msg == BothTypesMessage
    ensures r == Ok(SingleJob) <==> Truthy(opts, SingleJobKey) && !Truthy(opts, PermanentKey)
    ensures r == Ok(Permanent) <==> Truthy(opts, PermanentKey) && !Truthy(opts, SingleJobKey)
    ensures r == Ok(Persistent) <==> !Truthy(opts, SingleJobKey) && !Truthy(opts, PermanentKey)
  {
    if Truthy(opts, SingleJobKey) && Truthy(opts, PermanentKey) then Err(BothTypesMessage)
    else if Truthy(opts, SingleJobKey) then Ok(SingleJob)
    else if Truthy(opts, PermanentKey) then Ok(Permanent)
    else Ok(Persistent)
  }

  const NoToIMessage := "undefined method `to_i'"

  /** `options[:clustersize].to_i`: text is read as its leading number. */
  function ClusterSize(v: Value): (r: Result<nat>)
    ensures v.Str? ==> r == Ok(ToI(v.s))
    ensures v.Int? ==> r == Ok(v.n)
    ensures r.Err? <==> v.Bool? || v.Strs?
  {
    match v
    case Str(s) => Ok(ToI(s))
    case Int(n) => Ok(n)
    case _ => Err(NoToIMessage)
  }

  /** The commit a job runs: the `--branch` given with `--project` (else
      master), or what syncing the local code answers. */
  function GitRef(opts: Options, synced: Result<string>): (r: Result<Value>)
    ensures Truthy(opts, ProjectKey) && Truthy(opts, BranchKey) ==> r == Ok(Lookup(opts, BranchKey).value)
    ensures Truthy(opts, ProjectKey) && !Truthy(opts, BranchKey) ==> r == Ok(Str("master"))
    ensures !Truthy(opts, ProjectKey) ==> r == if synced.Ok? then Ok(Str(synced.value)) else Err(synced.msg)
  {
    if Truthy(opts, ProjectKey) then Ok(if Truthy(opts, BranchKey) then Lookup(opts, BranchKey).value else Str("master"))
    else if synced.Ok? then Ok(Str(synced.value))
    else Err(synced.msg)
  }

  /** pig_version: `--pigversion`, 0.9 by default. */
  function PigVersionOf(opts: Options): (r: Result<string>)
    ensures !Truthy(opts, PigVersionKey) ==> r == Ok("0.9")
    ensures Truthy(opts, PigVersionKey) ==> (r.Ok? <==> Text(Lookup(opts, PigVersionKey).value) in {"0.9", "0.12"})
    ensures r.Ok? ==> r.value in {"0.9", "0.12"}
  {
    var v :- PigVersions.FromString(if Truthy(opts, PigVersionKey) then Text(Lookup(opts, PigVersionKey).value) else "0.9");
    Ok(v.Version())
  }

  /** `options[:parameter]`: the `-p` values the option parser collected,
      or what a defaults file set. */
  function ParameterOption(opts: Options): Option<Value> {
    Lookup(opts, ParameterKey)
  }

  /** pig_parameters as a value (the method of that name computes it). */
  function Parameters(paramFile: Option<seq<string>>, option: Option<Value>): (r: Result<seq<Param>>)
    ensures r.Err? <==> (paramFile.Some? && AnyMalformed(paramFile.value)) || InputParameters(option).Err?
    ensures paramFile.Some? && AnyMalformed(paramFile.value) ==> r == Err(MalformedMessage)
    ensures !(paramFile.Some? && AnyMalformed(paramFile.value)) && InputParameters(option).Err? ==>
      r == Err(InputParameters(option).msg)
    ensures r.Ok? ==> r.value == ToParams(Merged(if paramFile.Some? then paramFile.value else [], InputParameters(option).value))
  {
    if paramFile.Some? && AnyMalformed(paramFile.value) then Err(MalformedMessage)
    else
      var given :- InputParameters(option);
      Ok(ToParams(Merged(if paramFile.Some? then paramFile.value else [], given)))
  }

  /** A `parameter` key of a defaults file sets one text, which is sent as
      one parameter, split at its first `=`; `parameter=true` raises. */
  lemma DefaultsParameterText(s: string)
    ensures Parameters(None, Some(Str(s))) == Ok([Param(OptionEntry(s).0, OptionEntry(s).1)])
    ensures Parameters(None, Some(Bool(true))).Err?
  {
    var e := OptionEntry(s);
    assert FileEntries([]) == [];
    assert [e][..0] == [];
    assert OptionEntries([s]) == [e];
    assert PutAll([], OptionEntries([s])) == [e];
    assert Merged([], [s]) == [e];
    assert InputParameters(Some(Str(s))) == Ok([s]);
    assert ToParams([e]) == [Param(e.0, e.1)];
  }

  // ---------------------------------------------------------------------
  // The script
  // ---------------------------------------------------------------------

  /** The index of the last '.' of `s`. */
  function LastDot(s: string): (r: Option<nat>)
    ensures r.None? <==> forall i :: 0 <= i < |s| ==> s[i] != '.'
    ensures r.Some? ==> r.value < |s| && s[r.value] == '.' && forall i :: r.value < i < |s| ==> s[i] != '.'
  {
    if |s| == 0 then None
    else if s[|s| - 1] == '.' then Some(|s| - 1)
    else
      var r := LastDot(s[..|s| - 1]);
      assert forall i :: 0 <= i < |s| - 1 ==> s[..|s| - 1][i] == s[i];
      r
  }

  predicate AllDots(s: string) {
    forall i :: 0 <= i < |s| ==> s[i] == '.'
  }

  /** File.extname: from the basename's last '.', unless only dots come
      before it. */
  function Extname(p: string): (r: string)
    ensures EndsWith(Basename(p), r)
    ensures r == "" || r[0] == '.'
    ensures forall k :: 0 < k < |r| ==> r[k] != '.'
    ensures var b := Basename(p);
      r != "" <==> exists i, j :: 0 <= j < i < |b| && b[i] == '.' && b[j] != '.'
  {
    var b := Basename(p);
    var d := LastDot(b);
    if d.None? || AllDots(b[..d.value]) then "" else b[d.value..]
  }

  /** File.basename(p, ".*"): the basename without its extension. */
  function Stem(p: string): (r: string)
    ensures r + Extname(p) == Basename(p)
  {
    var b := Basename(p);
    var e := Extname(p);
    assert b == b[..|b| - |e|] + e;
    b[..|b| - |e|]
  }

  const GuessLine := "Unable to guess script type (controlscript vs pigscript).\n"
  const GuessHint :=
    "When running a script with the --project option, please provide "
    + "the full path and filename, e.g.\n"
  const GuessRunPrefix := " mortar run pigscripts/"
  const GuessRunProject := ".pig --project "

  function GuessMessage(script: string, project: string): string {
    GuessLine + GuessHint + GuessRunPrefix + script + GuessRunProject + project
  }

  /** With `--project` the script type comes from the extension: `.pig` is
      a pig script, `.py` a control script.  Answers the script's name and
      whether it is a control script. */
  function GuessScript(script: string, project: string): (r: Result<(string, bool)>)
    ensures r.Ok? <==> Extname(script) == ".pig" || Extname(script) == ".py"
    ensures r.Ok? ==> (r.value.1 <==> Extname(script) == ".py") && r.value.0 + Extname(script) == Basename(script)
    ensures r.Err? ==> r.msg == GuessMessage(script, project)
  {
    var e := Extname(script);
    if e == ".pig" then Ok((Stem(script), false))
    else if e == ".py" then Ok((Stem(script), true))
    else Err(GuessMessage(script, project))
  }

  /** A script path ending in `<dir>/<name>.pig` or `.py` is guessed as the
      script `name`. */
  lemma GuessScriptOfPath(dir: string, name: string, ext: string, project: string)
    requires ext == ".pig" || ext == ".py"
    requires name != "" && forall i :: 0 <= i < |name| ==> name[i] != '/' && name[i] != '.'
    ensures GuessScript(dir + "/" + name + ext, project) == Ok((name, ext == ".py"))
  {
    var p := dir + "/" + name + ext;
    BasenameOfNamed(dir, name, ext);
    LastDotOfNamed(name, ext);
    ExtnameOfNamed(p, name, ext);
  }

  lemma BasenameOfNamed(dir: string, name: string, ext: string)
    requires ext == ".pig" || ext == ".py"
    requires forall i :: 0 <= i < |name| ==> name[i] != '/'
    ensures Basename(dir + "/" + name + ext) == name + ext
  {
    var b := name + ext;
    assert dir + "/" + name + ext == (dir + "/") + b;
    assert NoneIn(b, {'/'}) by {
      assert forall i :: |name| <= i < |b| ==> b[i] == ext[i - |name|];
    }
    BasenameAfterSlash(dir + "/", b);
  }

  lemma ExtnameOfNamed(p: string, name: string, ext: string)
    requires name != "" && name[0] != '.'
    requires Basename(p) == name + ext && LastDot(name + ext) == Some(|name|)
    ensures Extname(p) == ext && Stem(p) == name
  {
    var b := name + ext;
    assert b[..|name|] == name && !AllDots(name);
    assert b[|name|..] == ext;
  }

  lemma LastDotOfNamed(name: string, ext: string)
    requires ext == ".pig" || ext == ".py"
    requires forall i :: 0 <= i < |name| ==> name[i] != '.'
    ensures LastDot(name + ext) == Some(|name|)
  {
    var b := name + ext;
    assert b[|name|] == '.';
    var d := LastDot(b).value;
    assert forall i :: |name| < i < |b| ==> b[i] == ext[i - |name|] && b[i] != '.';
  }

  // ---------------------------------------------------------------------
  // The request
  // ---------------------------------------------------------------------

  /** The script a project holds, as validate_script! finds it. */
  datatype Script = Script(name: string, relPath: string, control: bool)

  /** The call that starts the job: post_pig_job_new_cluster or
      post_pig_job_existing_cluster, with their arguments. */
  datatype Request =
    | NewCluster(project: Option<Value>, script: string, gitRef: Value, size: nat, clusterType: ClusterType,
                 pigVersion: string, scriptPath: Option<string>, parameters: seq<Param>,
                 notify: bool, control: bool, spot: Value)
    | ExistingCluster(project: Option<Value>, script: string, gitRef: Value, clusterId: Value,
                      pigVersion: string, scriptPath: Option<string>, parameters: seq<Param>,
                      notify: bool, control: bool)

  /** The request's arguments, in the order Ruby evaluates them. */
  function JobRequest(opts: Options, project: Option<Value>, script: string, control: bool,
                      scriptPath: Option<string>, gitRef: Value, paramFile: Option<seq<string>>)
    : (r: Result<Request>)
    requires Truthy(opts, ClusterIdKey) || Truthy(opts, ClusterSizeKey)
    ensures r.Ok? <==> (Truthy(opts, ClusterSizeKey) ==>
                          ClusterTypeOf(opts).Ok? && ClusterSize(Lookup(opts, ClusterSizeKey).value).Ok?)
                       && PigVersionOf(opts).Ok? && Parameters(paramFile, ParameterOption(opts)).Ok?
    ensures Truthy(opts, ClusterSizeKey) && ClusterTypeOf(opts).Err? ==> r == Err(BothTypesMessage)
    ensures r.Ok? ==> (r.value.NewCluster? <==> Truthy(opts, ClusterSizeKey))
    ensures r.Ok? ==>
      && r.value.notify == !Truthy(opts, DoNotNotifyKey) && r.value.control == control
      && r.value.gitRef == gitRef && r.value.project == project && r.value.script == script
      && r.value.scriptPath == scriptPath && r.value.parameters == Parameters(paramFile, ParameterOption(opts)).value
    ensures r.Ok? && r.value.NewCluster? ==>
      && r.value.clusterType == ClusterTypeOf(opts).value
      && r.value.size == ClusterSize(Lookup(opts, ClusterSizeKey).value).value
      && (!Truthy(opts, SpotKey) ==> r.value.spot == Bool(false))
    ensures r.Ok? && r.value.ExistingCluster? ==> r.value.clusterId == Lookup(opts, ClusterIdKey).value
  {
    var notify := !Truthy(opts, DoNotNotifyKey);
    if Truthy(opts, ClusterSizeKey) then
      var clusterType :- ClusterTypeOf(opts);
      var size :- ClusterSize(Lookup(opts, ClusterSizeKey).value);
      var spot := if Truthy(opts, SpotKey) then Lookup(opts, SpotKey).value else Bool(false);
      var version :- PigVersionOf(opts);
      var parameters :- Parameters(paramFile, ParameterOption(opts));
      Ok(NewCluster(project, script, gitRef, size, clusterType, version, scriptPath, parameters, notify, control, spot))
    else
      var version :- PigVersionOf(opts);
      var parameters :- Parameters(paramFile, ParameterOption(opts));
      Ok(ExistingCluster(project, script, gitRef, Lookup(opts, ClusterIdKey).value, version, scriptPath,
                         parameters, notify, control))
  }

  /** What a run does besides computing: the cluster list is fetched, the
      local code is synced. */
  datatype Step = ClustersFetched | CodeSynced

  /** How a run ends: its request or error, what it did, and the options as
      it left them. */
  datatype Launched = Launched(res: Result<Request>, steps: seq<Step>, options: Options)

  /** jobs:run once the script is known: default the cluster, check the
      options against it, find the commit, then build the request. */
  function LaunchOutcome(opts: Options, project: Option<Value>, script: string, control: bool,
                         scriptPath: Option<string>, clusters: seq<Cluster>, synced: Result<string>,
                         paramFile: Option<seq<string>>): Launched
  {
    var fetched := if Truthy(opts, ClusterIdKey) || Truthy(opts, ClusterSizeKey) then [] else [ClustersFetched];
    match DefaultCluster(opts, clusters)
    case Err(e) => Launched(Err(e), fetched, opts)
    case Ok(o) => Checked(o, fetched, project, script, control, scriptPath, synced, paramFile)
  }

  /** The rest of jobs:run once the options name a cluster: the code is
      synced, last, unless `--project` is given. */
  function Checked(o: Options, fetched: seq<Step>, project: Option<Value>, script: string, control: bool,
                   scriptPath: Option<string>, synced: Result<string>, paramFile: Option<seq<string>>)
    : (l: Launched)
    requires Truthy(o, ClusterIdKey) || Truthy(o, ClusterSizeKey)
    ensures l.options == o
    ensures l.steps == fetched || l.steps == fetched + [CodeSynced]
    ensures l.res.Ok? ==> (l.steps == fetched + [CodeSynced] <==> !Truthy(o, ProjectKey))
    ensures CheckExistingCluster(o).Err? ==> l.res == Err(CheckExistingCluster(o).msg) && l.steps == fetched
  {
    if CheckExistingCluster(o).Err? then Launched(Err(CheckExistingCluster(o).msg), fetched, o)
    else
      var steps := if Truthy(o, ProjectKey) then fetched else fetched + [CodeSynced];
      match GitRef(o, synced)
      case Err(e) => Launched(Err(e), steps, o)
      case Ok(gitRef) => Launched(JobRequest(o, project, script, control, scriptPath, gitRef, paramFile), steps, o)
  }

  /** The jobs:run steps after the script is known, on the command's options:
      the default cluster is written into them. */
  method Launch(cmd: Command, project: Option<Value>, script: string, control: bool,
                scriptPath: Option<string>, clusters: seq<Cluster>, synced: Result<string>,
                paramFile: Option<seq<string>>)
    returns (res: Result<Request>, steps: seq<Step>)
    modifies cmd`options
    ensures Launched(res, steps, cmd.options)
         == LaunchOutcome(old(cmd.options), project, script, control, scriptPath, clusters, synced, paramFile)
  {
    steps := [];
    if !(Truthy(cmd.options, ClusterIdKey) || Truthy(cmd.options, ClusterSizeKey)) {
      steps := [ClustersFetched];
      var free := FreeClusterChoice(clusters);
      if free.Err? {
        return Err(free.msg), steps;
      }
      if free.value.None? {
        cmd.options := Put(cmd.options, ClusterSizeKey, Int(2));
      } else {
        cmd.options := Put(cmd.options, ClusterIdKey, Str(free.value.value.clusterId));
      }
    }
    assert DefaultCluster(old(cmd.options), clusters) == Ok(cmd.options);
    res, steps := LaunchChecked(cmd.options, steps, project, script, control, scriptPath, synced, paramFile);
  }

  /** The jobs:run steps once the options name a cluster. */
  method LaunchChecked(opts: Options, fetched: seq<Step>, project: Option<Value>, script: string, control: bool,
                       scriptPath: Option<string>, synced: Result<string>, paramFile: Option<seq<string>>)
    returns (res: Result<Request>, steps: seq<Step>)
    requires Truthy(opts, ClusterIdKey) || Truthy(opts, ClusterSizeKey)
    ensures Launched(res, steps, opts) == Checked(opts, fetched, project, script, control, scriptPath, synced, paramFile)
  {
    steps := fetched;
    if Truthy(opts, ClusterIdKey) {
      var conflict := FirstConflict(opts);
      if conflict.Some? {
        return Err(ConflictMessage(conflict.value)), steps;
      }
    }
    var gitRef: Value;
    if Truthy(opts, ProjectKey) {
      gitRef := if Truthy(opts, BranchKey) then Lookup(opts, BranchKey).value else Str("master");
    } else {
      steps := steps + [CodeSynced];
      if synced.Err? {
        return Err(synced.msg), steps;
      }
      gitRef := Str(synced.value);
    }
    res := Submit(opts, project, script, control, scriptPath, gitRef, paramFile);
  }

  /** The test of each option a job on an existing cluster must not carry,
      in turn; answers the first one given. */
  method FirstConflict(opts: Options) returns (conflict: Option<string>)
    ensures conflict.None? <==> FirstGiven(opts, ExistingClusterOptions).None?
    ensures conflict.Some? ==> conflict.value == ExistingClusterOptions[FirstGiven(opts, ExistingClusterOptions).value]
  {
    var i := 0;
    while i < |ExistingClusterOptions|
      invariant 0 <= i <= |ExistingClusterOptions|
      invariant forall j :: 0 <= j < i ==> !HasKey(opts, ExistingClusterOptions[j])
    {
      if HasKey(opts, ExistingClusterOptions[i]) {
        var first := FirstGiven(opts, ExistingClusterOptions);
        assert first.Some? && first.value == i;
        return Some(ExistingClusterOptions[i]);
      }
      i := i + 1;
    }
    return None;
  }

  /** The `action("Requesting job execution")` block. */
  method Submit(opts: Options, project: Option<Value>, script: string, control: bool,
                scriptPath: Option<string>, gitRef: Value, paramFile: Option<seq<string>>)
    returns (res: Result<Request>)
    requires Truthy(opts, ClusterIdKey) || Truthy(opts, ClusterSizeKey)
    ensures res == JobRequest(opts, project, script, control, scriptPath, gitRef, paramFile)
  {
    if Truthy(opts, ClusterSizeKey) {
      res := SubmitNewCluster(opts, project, script, control, scriptPath, gitRef, paramFile);
    } else {
      res := SubmitExistingCluster(opts, project, script, control, scriptPath, gitRef, paramFile);
    }
  }

  /** A job for a new cluster of the size the options give. */
  method SubmitNewCluster(opts: Options, project: Option<Value>, script: string, control: bool,
                          scriptPath: Option<string>, gitRef: Value, paramFile: Option<seq<string>>)
    returns (res: Result<Request>)
    requires Truthy(opts, ClusterSizeKey)
    ensures res == JobRequest(opts, project, script, control, scriptPath, gitRef, paramFile)
  {
    if Truthy(opts, SingleJobKey) && Truthy(opts, PermanentKey) {
      return Err(BothTypesMessage);
    }
    var size := ClusterSize(Lookup(opts, ClusterSizeKey).value);
    if size.Err? {
      return Err(size.msg);
    }
    var clusterType := Persistent;
    if Truthy(opts, SingleJobKey) {
      clusterType := SingleJob;
    } else if Truthy(opts, PermanentKey) {
      clusterType := Permanent;
    }
    assert clusterType == ClusterTypeOf(opts).value;
    var spot := if Truthy(opts, SpotKey) then Lookup(opts, SpotKey).value else Bool(false);
    res := SubmitSized(opts, project, script, control, scriptPath, gitRef, paramFile, size.value, clusterType, spot);
  }

  /** The rest of a new-cluster job once its size and type are known. */
  method SubmitSized(opts: Options, project: Option<Value>, script: string, control: bool,
                     scriptPath: Option<string>, gitRef: Value, paramFile: Option<seq<string>>,
                     size: nat, clusterType: ClusterType, spot: Value)
    returns (res: Result<Request>)
    requires Truthy(opts, ClusterSizeKey) && ClusterTypeOf(opts) == Ok(clusterType)
    requires ClusterSize(Lookup(opts, ClusterSizeKey).value) == Ok(size)
    requires spot == if Truthy(opts, SpotKey) then Lookup(opts, SpotKey).value else Bool(false)
    ensures res == JobRequest(opts, project, script, control, scriptPath, gitRef, paramFile)
  {
    var version := PigVersionOf(opts);
    if version.Err? {
      return Err(version.msg);
    }
    var parameters := PigParameters(paramFile, ParameterOption(opts));
    if parameters.Err? {
      assert JobRequest(opts, project, script, control, scriptPath, gitRef, paramFile) == Err(parameters.msg);
      return Err(parameters.msg);
    }
    var notify := !Truthy(opts, DoNotNotifyKey);
    res := Ok(NewCluster(project, script, gitRef, size, clusterType, version.value, scriptPath,
                         parameters.value, notify, control, spot));
    assert JobRequest(opts, project, script, control, scriptPath, gitRef, paramFile) == res;
  }

  /** A job for the cluster the options name. */
  method SubmitExistingCluster(opts: Options, project: Option<Value>, script: string, control: bool,
                               scriptPath: Option<string>, gitRef: Value, paramFile: Option<seq<string>>)
    returns (res: Result<Request>)
    requires !Truthy(opts, ClusterSizeKey) && Truthy(opts, ClusterIdKey)
    ensures res == JobRequest(opts, project, script, control, scriptPath, gitRef, paramFile)
  {
    var notify := !Truthy(opts, DoNotNotifyKey);
    var version := PigVersionOf(opts);
    if version.Err? {
      return Err(version.msg);
    }
    var parameters := PigParameters(paramFile, ParameterOption(opts));
    if parameters.Err? {
      return Err(parameters.msg);
    }
    res := Ok(ExistingCluster(project, script, gitRef, Lookup(opts, ClusterIdKey).value, version.value,
                              scriptPath, parameters.value, notify, control));
  }

  const UsageMessage := "Usage: mortar jobs:run SCRIPT\nMust specify SCRIPT."

  function Named(name: Option<string>): Option<Value> {
    if name.Some? then Some(Str(name.value)) else None
  }

  /** jobs:run.  With `--project` the script is named by its path and the
      code is the project's branch; otherwise `found` is the project's name
      and the script validate_script! finds in it (or the error it raises),
      and the script's section of the defaults file is loaded first. */
  method RunJob(cmd: Command, scriptArg: Option<string>, found: Result<(Option<string>, Script)>,
                properties: Option<Config>, legacy: Option<Config>, clusters: seq<Cluster>,
                synced: Result<string>, paramFile: Option<seq<string>>)
    returns (res: Result<Request>, steps: seq<Step>)
    modifies cmd`options
    ensures scriptArg.None? ==> res == Err(UsageMessage) && steps == [] && cmd.options == old(cmd.options)
    ensures scriptArg.Some? && Truthy(old(cmd.options), ProjectKey) ==>
      var project := Lookup(old(cmd.options), ProjectKey).value;
      var guess := GuessScript(scriptArg.value, Text(project));
      if guess.Err? then res == Err(guess.msg) && steps == []
      else Launched(res, steps, cmd.options)
           == LaunchOutcome(old(cmd.options), Some(project), guess.value.0, guess.value.1, None, clusters, synced, paramFile)
    ensures scriptArg.Some? && !Truthy(old(cmd.options), ProjectKey) ==>
      if found.Err? then res == Err(found.msg) && steps == []
      else
        var script := found.value.1;
        var loaded := PutAll(old(cmd.options), Admitted(cmd.original, SectionOf(Chosen(properties, legacy), script.name)));
        Launched(res, steps, cmd.options)
        == LaunchOutcome(loaded, Named(found.value.0), script.name, script.control, Some(script.relPath), clusters, synced, paramFile)
  {
    if scriptArg.None? {
      return Err(UsageMessage), [];
    }
    var project: Option<Value>;
    var name: string;
    var control: bool;
    var scriptPath: Option<string>;
    if Truthy(cmd.options, ProjectKey) {
      project := Some(Lookup(cmd.options, ProjectKey).value);
      var guess := GuessScript(scriptArg.value, Text(project.value));
      if guess.Err? {
        return Err(guess.msg), [];
      }
      name, control, scriptPath := guess.value.0, guess.value.1, None;
    } else {
      if found.Err? {
        return Err(found.msg), [];
      }
      project := Named(found.value.0);
      var script := found.value.1;
      cmd.LoadDefaults(script.name, properties, legacy);
      name, control, scriptPath := script.name, script.control, Some(script.relPath);
    }
    res, steps := Launch(cmd, project, name, control, scriptPath, clusters, synced, paramFile);
  }

  // ---------------------------------------------------------------------
  // What a run promises
  // ---------------------------------------------------------------------

  /** The cluster list is fetched exactly when no cluster was named, and the
      code is synced exactly when no `--project` is given, after the
      clusters. */
  lemma {:induction false} LaunchSteps(opts: Options, project: Option<Value>, script: string, control: bool,
                    scriptPath: Option<string>, clusters: seq<Cluster>, synced: Result<string>,
                    paramFile: Option<seq<string>>)
    ensures var l := LaunchOutcome(opts, project, script, control, scriptPath, clusters, synced, paramFile);
      && (|l.steps| > 0 && l.steps[0] == ClustersFetched <==> !(Truthy(opts, ClusterIdKey) || Truthy(opts, ClusterSizeKey)))
      && (l.res.Ok? ==> (CodeSynced in l.steps <==> !Truthy(opts, ProjectKey)))
      && (CodeSynced in l.steps ==> l.steps[|l.steps| - 1] == CodeSynced)
  {
    if DefaultCluster(opts, clusters).Ok? {
      LaunchStepsDefaulted(opts, project, script, control, scriptPath, clusters, synced, paramFile);
    } else {
      LaunchStepsNoCluster(opts, project, script, control, scriptPath, clusters, synced, paramFile);
    }
  }

  lemma {:induction false} LaunchStepsDefaulted(opts: Options, project: Option<Value>, script: string, control: bool,
                    scriptPath: Option<string>, clusters: seq<Cluster>, synced: Result<string>,
                    paramFile: Option<seq<string>>)
    requires DefaultCluster(opts, clusters).Ok?
    ensures var l := LaunchOutcome(opts, project, script, control, scriptPath, clusters, synced, paramFile);
      && (|l.steps| > 0 && l.steps[0] == ClustersFetched <==> !(Truthy(opts, ClusterIdKey) || Truthy(opts, ClusterSizeKey)))
      && (l.res.Ok? ==> (CodeSynced in l.steps <==> !Truthy(opts, ProjectKey)))
      && (CodeSynced in l.steps ==> l.steps[|l.steps| - 1] == CodeSynced)
  {
    var fetched := if Truthy(opts, ClusterIdKey) || Truthy(opts, ClusterSizeKey) then [] else [ClustersFetched];
    var l := LaunchOutcome(opts, project, script, control, scriptPath, clusters, synced, paramFile);
    var o := DefaultCluster(opts, clusters).value;
    assert l == Checked(o, fetched, project, script, control, scriptPath, synced, paramFile);
    assert Lookup(o, ProjectKey) == Lookup(opts, ProjectKey) by {
      if !(Truthy(opts, ClusterIdKey) || Truthy(opts, ClusterSizeKey)) {
        DefaultClusterChoice(opts, clusters, ProjectKey);
      }
    }
    StepsShape(l, fetched, Truthy(o, ProjectKey));
  }

  lemma {:induction false} LaunchStepsNoCluster(opts: Options, project: Option<Value>, script: string, control: bool,
                    scriptPath: Option<string>, clusters: seq<Cluster>, synced: Result<string>,
                    paramFile: Option<seq<string>>)
    requires DefaultCluster(opts, clusters).Err?
    ensures var l := LaunchOutcome(opts, project, script, control, scriptPath, clusters, synced, paramFile);
      && (|l.steps| > 0 && l.steps[0] == ClustersFetched <==> !(Truthy(opts, ClusterIdKey) || Truthy(opts, ClusterSizeKey)))
      && (l.res.Ok? ==> (CodeSynced in l.steps <==> !Truthy(opts, ProjectKey)))
      && (CodeSynced in l.steps ==> l.steps[|l.steps| - 1] == CodeSynced)
  {
    var fetched := if Truthy(opts, ClusterIdKey) || Truthy(opts, ClusterSizeKey) then [] else [ClustersFetched];
    var l := LaunchOutcome(opts, project, script, control, scriptPath, clusters, synced, paramFile);
    assert l == Launched(Err(DefaultCluster(opts, clusters).msg), fetched, opts);
    StepsShape(l, fetched, Truthy(opts, ProjectKey));
  }

  /** The order of the steps, whatever the options: the fetch (if any)
      first, the sync (if any) last. */
  lemma StepsShape(l: Launched, fetched: seq<Step>, projectGiven: bool)
    requires fetched == [] || fetched == [ClustersFetched]
    requires l.steps == fetched || l.steps == fetched + [CodeSynced]
    requires l.res.Ok? ==> (l.steps == fetched + [CodeSynced] <==> !projectGiven)
    ensures |l.steps| > 0 && l.steps[0] == ClustersFetched <==> fetched == [ClustersFetched]
    ensures l.res.Ok? ==> (CodeSynced in l.steps <==> !projectGiven)
    ensures CodeSynced in l.steps ==> l.steps[|l.steps| - 1] == CodeSynced
  {
    if l.steps == fetched + [CodeSynced] {
      assert CodeSynced in l.steps;
    }
  }

  /** A quirk of the order of the checks: `--singlejobcluster` (or
      `--permanentcluster`) without a cluster size, while some cluster is
      free, sends the job to that cluster and then rejects the flag. */
  lemma {:induction false} TypeFlagWithFreeClusterFails(opts: Options, project: Option<Value>, script: string, control: bool,
                                     scriptPath: Option<string>, clusters: seq<Cluster>, synced: Result<string>,
                                     paramFile: Option<seq<string>>, i: nat)
    requires !HasKey(opts, ClusterIdKey) && !HasKey(opts, ClusterSizeKey) && HasKey(opts, SingleJobKey)
    requires forall j :: 0 <= j < |clusters| ==> clusters[j].runningJobs.Some?
    requires i < |clusters| && Free(clusters[i])
    ensures LaunchOutcome(opts, project, script, control, scriptPath, clusters, synced, paramFile).res
         == Err(ConflictMessage(SingleJobKey))
  {
    var b := LargestFree(clusters).value;
    var o := Put(opts, ClusterIdKey, Str(clusters[b].clusterId));
    assert FreeClusterChoice(clusters) == Ok(Some(clusters[b]));
    assert DefaultCluster(opts, clusters) == Ok(o);
    PutLookupSame(opts, ClusterIdKey, Str(clusters[b].clusterId));
    PutLookupOther(opts, ClusterIdKey, Str(clusters[b].clusterId), SingleJobKey);
    PutLookupOther(opts, ClusterIdKey, Str(clusters[b].clusterId), ClusterSizeKey);
    assert Truthy(o, ClusterIdKey);
    assert !HasKey(o, ExistingClusterOptions[0]) && HasKey(o, ExistingClusterOptions[1]);
    assert FirstGiven(o, ExistingClusterOptions) == Some(1);
    assert CheckExistingCluster(o) == Err(ConflictMessage(SingleJobKey));
    assert LaunchOutcome(opts, project, script, control, scriptPath, clusters, synced, paramFile)
        == Checked(o, [ClustersFetched], project, script, control, scriptPath, synced, paramFile);
  }

  // ---------------------------------------------------------------------
  // jobs:run --project and the script's path
  // ---------------------------------------------------------------------

  const NilRelPathMessage := "undefined method `rel_path' for nil:NilClass"

  /** `script.rel_path` as written: under `--project` no script was looked
      up, so `script` is nil and reading its path raises. */
  function ScriptPathAsWritten(script: Option<Script>): (r: Result<string>)
    ensures r.Err? <==> script.None?
    ensures r.Ok? ==> r.value == script.value.relPath
  {
    if script.None? then Err(NilRelPathMessage) else Ok(script.value.relPath)
  }

  /** The request's arguments as written: `script.rel_path` is read on the
      script object, between the Pig version and the parameters. */
  function JobRequestAsWritten(opts: Options, project: Option<Value>, script: string, control: bool,
                               found: Option<Script>, gitRef: Value, paramFile: Option<seq<string>>)
    : (r: Result<Request>)
    requires Truthy(opts, ClusterIdKey) || Truthy(opts, ClusterSizeKey)
    ensures found.Some? ==>
      r == JobRequest(opts, project, script, control, Some(found.value.relPath), gitRef, paramFile)
    ensures found.None? ==> r.Err?
    ensures found.None? && PigVersionOf(opts).Ok?
            && (Truthy(opts, ClusterSizeKey) ==>
                  ClusterTypeOf(opts).Ok? && ClusterSize(Lookup(opts, ClusterSizeKey).value).Ok?)
            ==> r == Err(NilRelPathMessage)
  {
    var notify := !Truthy(opts, DoNotNotifyKey);
    if Truthy(opts, ClusterSizeKey) then
      var clusterType :- ClusterTypeOf(opts);
      var size :- ClusterSize(Lookup(opts, ClusterSizeKey).value);
      var spot := if Truthy(opts, SpotKey) then Lookup(opts, SpotKey).value else Bool(false);
      var version :- PigVersionOf(opts);
      var path :- ScriptPathAsWritten(found);
      var parameters :- Parameters(paramFile, ParameterOption(opts));
      Ok(NewCluster(project, script, gitRef, size, clusterType, version, Some(path), parameters, notify, control, spot))
    else
      var version :- PigVersionOf(opts);
      var path :- ScriptPathAsWritten(found);
      var parameters :- Parameters(paramFile, ParameterOption(opts));
      Ok(ExistingCluster(project, script, gitRef, Lookup(opts, ClusterIdKey).value, version, Some(path),
                         parameters, notify, control))
  }

  /** jobs:run after the script is known, as written: the request reads the
      path of the script object it is given. */
  function LaunchOutcomeAsWritten(opts: Options, project: Option<Value>, script: string, control: bool,
                                  found: Option<Script>, clusters: seq<Cluster>, synced: Result<string>,
                                  paramFile: Option<seq<string>>): Launched
  {
    var fetched := if Truthy(opts, ClusterIdKey) || Truthy(opts, ClusterSizeKey) then [] else [ClustersFetched];
    match DefaultCluster(opts, clusters)
    case Err(e) => Launched(Err(e), fetched, opts)
    case Ok(o) =>
      if CheckExistingCluster(o).Err? then Launched(Err(CheckExistingCluster(o).msg), fetched, o)
      else
        var steps := if Truthy(o, ProjectKey) then fetched else fetched + [CodeSynced];
        match GitRef(o, synced)
        case Err(e) => Launched(Err(e), steps, o)
        case Ok(gitRef) => Launched(JobRequestAsWritten(o, project, script, control, found, gitRef, paramFile), steps, o)
  }

  /** With a script looked up, the code as written and the model agree: the
      path sent is the script's. */
  lemma AsWrittenWithScript(opts: Options, project: Option<Value>, script: string, control: bool,
                            found: Script, clusters: seq<Cluster>, synced: Result<string>,
                            paramFile: Option<seq<string>>)
    ensures LaunchOutcomeAsWritten(opts, project, script, control, Some(found), clusters, synced, paramFile)
         == LaunchOutcome(opts, project, script, control, Some(found.relPath), clusters, synced, paramFile)
  {
  }

  /** As written, a run with no script object fails wherever the model's run
      succeeds, after the same steps: whether the new-cluster or the
      existing-cluster call is made, it reads `rel_path` on nil. */
  lemma {:induction false} AsWrittenFailsWithoutScript(opts: Options, project: Option<Value>, script: string,
                                    control: bool, clusters: seq<Cluster>, synced: Result<string>,
                                    paramFile: Option<seq<string>>)
    ensures var c := LaunchOutcome(opts, project, script, control, None, clusters, synced, paramFile);
      var w := LaunchOutcomeAsWritten(opts, project, script, control, None, clusters, synced, paramFile);
      w.steps == c.steps && w.options == c.options
      && (c.res.Ok? ==> w.res == Err(NilRelPathMessage))
  {
    var c := LaunchOutcome(opts, project, script, control, None, clusters, synced, paramFile);
    if DefaultCluster(opts, clusters).Ok? {
      var o := DefaultCluster(opts, clusters).value;
      if CheckExistingCluster(o).Ok? && GitRef(o, synced).Ok? {
        var gitRef := GitRef(o, synced).value;
        assert c.res == JobRequest(o, project, script, control, None, gitRef, paramFile);
      }
    }
  }

  /** As written, the `--project` run that the model submits (see
      `ProjectRunSubmits`) fails instead: no script was looked up. */
  lemma ProjectRunFailsAsWritten(opts: Options, script: string, project: string, clusters: seq<Cluster>,
                                 synced: Result<string>, paramFile: Option<seq<string>>)
    requires Truthy(opts, ProjectKey) && Truthy(opts, ClusterSizeKey) && !HasKey(opts, ClusterIdKey)
    requires ClusterTypeOf(opts).Ok? && ClusterSize(Lookup(opts, ClusterSizeKey).value).Ok?
    requires PigVersionOf(opts).Ok? && Parameters(paramFile, ParameterOption(opts)).Ok?
    requires GuessScript(script, project).Ok?
    ensures var g := GuessScript(script, project).value;
      LaunchOutcome(opts, Some(Str(project)), g.0, g.1, None, clusters, synced, paramFile).res.Ok?
      && LaunchOutcomeAsWritten(opts, Some(Str(project)), g.0, g.1, None, clusters, synced, paramFile).res
         == Err(NilRelPathMessage)
  {
    ProjectRunSubmits(opts, script, project, clusters, synced, paramFile);
    var g := GuessScript(script, project).value;
    AsWrittenFailsWithoutScript(opts, Some(Str(project)), g.0, g.1, clusters, synced, paramFile);
  }

  /** With the path sent only when a script was looked up, a `--project` run
      with a cluster size and otherwise acceptable options is requested from
      the branch given (master by default) with no script path, without
      fetching clusters or syncing code. */
  lemma ProjectRunSubmits(opts: Options, script: string, project: string, clusters: seq<Cluster>,
                          synced: Result<string>, paramFile: Option<seq<string>>)
    requires Truthy(opts, ProjectKey) && Truthy(opts, ClusterSizeKey) && !HasKey(opts, ClusterIdKey)
    requires ClusterTypeOf(opts).Ok? && ClusterSize(Lookup(opts, ClusterSizeKey).value).Ok?
    requires PigVersionOf(opts).Ok? && Parameters(paramFile, ParameterOption(opts)).Ok?
    requires GuessScript(script, project).Ok?
    ensures var g := GuessScript(script, project).value;
      var l := LaunchOutcome(opts, Some(Str(project)), g.0, g.1, None, clusters, synced, paramFile);
      && l.res.Ok? && l.res.value.NewCluster? && l.res.value.scriptPath == None
      && l.res.value.gitRef == (if Truthy(opts, BranchKey) then Lookup(opts, BranchKey).value else Str("master"))
      && l.steps == []
  {
    assert DefaultCluster(opts, clusters) == Ok(opts);
    assert CheckExistingCluster(opts) == Ok(());
    var gitRef := if Truthy(opts, BranchKey) then Lookup(opts, BranchKey).value else Str("master");
    assert GitRef(opts, synced) == Ok(gitRef);
    var g := GuessScript(script, project).value;
    var r := JobRequest(opts, Some(Str(project)), g.0, g.1, None, gitRef, paramFile);
    assert r.Ok?;
  }

  /** With the path sent only when a script was looked up, a `--project` run
      on an existing cluster with acceptable options is requested from the
      branch given (master by default) with no script path. */
  lemma ProjectRunOnClusterSubmits(opts: Options, script: string, project: string, clusters: seq<Cluster>,
                                   synced: Result<string>, paramFile: Option<seq<string>>)
    requires Truthy(opts, ProjectKey) && Truthy(opts, ClusterIdKey) && !HasKey(opts, ClusterSizeKey)
    requires CheckExistingCluster(opts).Ok?
    requires PigVersionOf(opts).Ok? && Parameters(paramFile, ParameterOption(opts)).Ok?
    requires GuessScript(script, project).Ok?
    ensures var g := GuessScript(script, project).value;
      var l := LaunchOutcome(opts, Some(Str(project)), g.0, g.1, None, clusters, synced, paramFile);
      && l.res.Ok? && l.res.value.ExistingCluster? && l.res.value.scriptPath == None
      && l.res.value.clusterId == Lookup(opts, ClusterIdKey).value
      && l.res.value.gitRef == (if Truthy(opts, BranchKey) then Lookup(opts, BranchKey).value else Str("master"))
      && l.steps == []
  {
    assert DefaultCluster(opts, clusters) == Ok(opts);
    var gitRef := if Truthy(opts, BranchKey) then Lookup(opts, BranchKey).value else Str("master");
    assert GitRef(opts, synced) == Ok(gitRef);
  }

  /** The same on an existing cluster: as written the `--project` run fails
      at the existing-cluster call's `script.rel_path`. */
  lemma ProjectRunOnClusterFailsAsWritten(opts: Options, script: string, project: string, clusters: seq<Cluster>,
                                          synced: Result<string>, paramFile: Option<seq<string>>)
    requires Truthy(opts, ProjectKey) && Truthy(opts, ClusterIdKey) && !HasKey(opts, ClusterSizeKey)
    requires CheckExistingCluster(opts).Ok?
    requires PigVersionOf(opts).Ok? && Parameters(paramFile, ParameterOption(opts)).Ok?
    requires GuessScript(script, project).Ok?
    ensures var g := GuessScript(script, project).value;
      LaunchOutcome(opts, Some(Str(project)), g.0, g.1, None, clusters, synced, paramFile).res.Ok?
      && LaunchOutcomeAsWritten(opts, Some(Str(project)), g.0, g.1, None, clusters, synced, paramFile).res
         == Err(NilRelPathMessage)
  {
    ProjectRunOnClusterSubmits(opts, script, project, clusters, synced, paramFile);
    var g := GuessScript(script, project).value;
    AsWrittenFailsWithoutScript(opts, Some(Str(project)), g.0, g.1, clusters, synced, paramFile);
  }

  // ---------------------------------------------------------------------
  // jobs:status --poll
  // ---------------------------------------------------------------------

  /** The progress bar: one '=' per five percent after a leading '=', then
      '>'. */
  function ProgressBar(progress: nat): (r: string)
    ensures |r| == progress / 5 + 2
    ensures r[|r| - 1] == '>' && forall i :: 0 <= i < |r| - 1 ==> r[i] == '='
  {
    "=" + seq(progress / 5, _ => '=') + ">"
  }

  /** At 100 percent the bar fills the 22 columns it is printed in, and it
      never shrinks as the job progresses. */
  lemma ProgressBarFits(p: nat, q: nat)
    requires p <= q
    ensures |ProgressBar(100)| == 22
    ensures |ProgressBar(p)| <= |ProgressBar(q)|
    ensures p <= 100 ==> |ProgressBar(p)| <= 22
  {
  }
}
