/** `mortar spark`: the same cluster and option rules as jobs:run, but the
    local code is synced before the default cluster is chosen, and the job
    carries the script's arguments instead of Pig parameters. */
module SparkCommand {
  import opened Common
  import opened CommandBase
  import opened JobsCommand

  /** post_spark_job_new_cluster or post_spark_job_existing_cluster, with
      their arguments. */
  datatype SparkRequest =
    | NewSparkCluster(project: Option<Value>, script: string, gitRef: Value, size: nat, clusterType: ClusterType,
                      scriptPath: Option<string>, arguments: seq<string>, spot: Value)
    | ExistingSparkCluster(project: Option<Value>, script: string, gitRef: Value, clusterId: Value,
                           scriptPath: Option<string>, arguments: seq<string>)

  datatype SparkLaunched = SparkLaunched(res: Result<SparkRequest>, steps: seq<Step>, options: Options)

  /** The request once the options name a cluster. */
  function SparkRequestOf(o: Options, project: Option<Value>, script: string, scriptPath: Option<string>,
                          arguments: seq<string>, gitRef: Value): (r: Result<SparkRequest>)
    requires Truthy(o, ClusterIdKey) || Truthy(o, ClusterSizeKey)
    ensures r.Ok? <==> !Truthy(o, ClusterSizeKey)
                       || (ClusterTypeOf(o).Ok? && ClusterSize(Lookup(o, ClusterSizeKey).value).Ok?)
    ensures Truthy(o, ClusterSizeKey) && ClusterTypeOf(o).Err? ==> r == Err(BothTypesMessage)
    ensures r.Ok? ==> (r.value.NewSparkCluster? <==> Truthy(o, ClusterSizeKey))
    ensures r.Ok? ==>
      && r.value.project == project && r.value.script == script && r.value.gitRef == gitRef
      && r.value.scriptPath == scriptPath && r.value.arguments == arguments
    ensures r.Ok? && r.value.NewSparkCluster? ==>
      && r.value.clusterType == ClusterTypeOf(o).value
      && r.value.size == ClusterSize(Lookup(o, ClusterSizeKey).value).value
      && (!Truthy(o, SpotKey) ==> r.value.spot == Bool(false))
    ensures r.Ok? && r.value.ExistingSparkCluster? ==> r.value.clusterId == Lookup(o, ClusterIdKey).value
  {
    if Truthy(o, ClusterSizeKey) then
      var clusterType :- ClusterTypeOf(o);
      var size :- ClusterSize(Lookup(o, ClusterSizeKey).value);
      var spot := if Truthy(o, SpotKey) then Lookup(o, SpotKey).value else Bool(false);
      Ok(NewSparkCluster(project, script, gitRef, size, clusterType, scriptPath, arguments, spot))
    else
      Ok(ExistingSparkCluster(project, script, gitRef, Lookup(o, ClusterIdKey).value, scriptPath, arguments))
  }

  /** spark once the script is known: check the options, find the commit,
      then default the cluster and build the request. */
  function SparkOutcome(opts: Options, project: Option<Value>, script: string, scriptPath: Option<string>,
                        arguments: seq<string>, clusters: seq<Cluster>, synced: Result<string>): SparkLaunched
  {
    if CheckExistingCluster(opts).Err? then SparkLaunched(Err(CheckExistingCluster(opts).msg), [], opts)
    else
      var synchronised := if Truthy(opts, ProjectKey) then [] else [CodeSynced];
      match GitRef(opts, synced)
      case Err(e) => SparkLaunched(Err(e), synchronised, opts)
      case Ok(gitRef) => Defaulted(opts, synchronised, project, script, scriptPath, arguments, clusters, gitRef)
  }

  /** The default cluster, after the code is synced. */
  function Defaulted(opts: Options, synchronised: seq<Step>, project: Option<Value>, script: string,
                     scriptPath: Option<string>, arguments: seq<string>, clusters: seq<Cluster>, gitRef: Value)
    : (l: SparkLaunched)
    ensures l.steps == synchronised + (if Truthy(opts, ClusterIdKey) || Truthy(opts, ClusterSizeKey) then [] else [ClustersFetched])
    ensures DefaultCluster(opts, clusters).Ok? ==> l.options == DefaultCluster(opts, clusters).value
  {
    var steps := synchronised + (if Truthy(opts, ClusterIdKey) || Truthy(opts, ClusterSizeKey) then [] else [ClustersFetched]);
    match DefaultCluster(opts, clusters)
    case Err(e) => SparkLaunched(Err(e), steps, opts)
    case Ok(o) => SparkLaunched(SparkRequestOf(o, project, script, scriptPath, arguments, gitRef), steps, o)
  }

  const SparkUsageMessage := "Usage: mortar spark SCRIPT\nMust specify SCRIPT."

  /** spark.  With `--project` the script is named as given; otherwise
      `found` is the project's name and the script its validation finds (or
      the error it raises). */
  method SparkIndex(cmd: Command, scriptArg: Option<string>, found: Result<(Option<string>, Script)>,
                    arguments: seq<string>, clusters: seq<Cluster>, synced: Result<string>)
    returns (res: Result<SparkRequest>, steps: seq<Step>)
    modifies cmd`options
    ensures scriptArg.None? ==> res == Err(SparkUsageMessage) && steps == [] && cmd.options == old(cmd.options)
    ensures scriptArg.Some? && Truthy(old(cmd.options), ProjectKey) ==>
      SparkLaunched(res, steps, cmd.options)
      == SparkOutcome(old(cmd.options), Some(Lookup(old(cmd.options), ProjectKey).value), scriptArg.value, None,
                      arguments, clusters, synced)
    ensures scriptArg.Some? && !Truthy(old(cmd.options), ProjectKey) ==>
      if found.Err? then res == Err(found.msg) && steps == [] && cmd.options == old(cmd.options)
      else SparkLaunched(res, steps, cmd.options)
           == SparkOutcome(old(cmd.options), Named(found.value.0), found.value.1.name, Some(found.value.1.relPath),
                           arguments, clusters, synced)
  {
    if scriptArg.None? {
      return Err(SparkUsageMessage), [];
    }
    var project: Option<Value>;
    var name: string;
    var scriptPath: Option<string>;
    if Truthy(cmd.options, ProjectKey) {
      project, name, scriptPath := Some(Lookup(cmd.options, ProjectKey).value), scriptArg.value, None;
    } else {
      if found.Err? {
        return Err(found.msg), [];
      }
      project, name, scriptPath := Named(found.value.0), found.value.1.name, Some(found.value.1.relPath);
    }
    res, steps := LaunchSpark(cmd, project, name, scriptPath, arguments, clusters, synced);
  }

  method LaunchSpark(cmd: Command, project: Option<Value>, script: string, scriptPath: Option<string>,
                     arguments: seq<string>, clusters: seq<Cluster>, synced: Result<string>)
    returns (res: Result<SparkRequest>, steps: seq<Step>)
    modifies cmd`options
    ensures SparkLaunched(res, steps, cmd.options)
         == SparkOutcome(old(cmd.options), project, script, scriptPath, arguments, clusters, synced)
  {
    steps := [];
    if Truthy(cmd.options, ClusterIdKey) {
      var conflict := FirstConflict(cmd.options);
      if conflict.Some? {
        return Err(ConflictMessage(conflict.value)), steps;
      }
    }
    var gitRef: Value;
    if Truthy(cmd.options, ProjectKey) {
      gitRef := if Truthy(cmd.options, BranchKey) then Lookup(cmd.options, BranchKey).value else Str("master");
    } else {
      steps := steps + [CodeSynced];
      if synced.Err? {
        return Err(synced.msg), steps;
      }
      gitRef := Str(synced.value);
    }
    res, steps := DefaultAndRequest(cmd, steps, project, script, scriptPath, arguments, clusters, gitRef);
  }

  /** The default cluster, then the request. */
  method DefaultAndRequest(cmd: Command, synchronised: seq<Step>, project: Option<Value>, script: string,
                           scriptPath: Option<string>, arguments: seq<string>, clusters: seq<Cluster>, gitRef: Value)
    returns (res: Result<SparkRequest>, steps: seq<Step>)
    modifies cmd`options
    ensures SparkLaunched(res, steps, cmd.options)
         == Defaulted(old(cmd.options), synchronised, project, script, scriptPath, arguments, clusters, gitRef)
  {
    steps := synchronised;
    if !(Truthy(cmd.options, ClusterIdKey) || Truthy(cmd.options, ClusterSizeKey)) {
      steps := steps + [ClustersFetched];
      var free := FreeClusterChoice(clusters);
      if free.Err? {
        return Err(free.msg), steps;
      }
      if free.value.None? {
        cmd.options := Put(cmd.options, ClusterSizeKey, Int(2));
      } else {
        cmd.options := Put(cmd.options, ClusterIdKey, Str(free.value.value.clusterId));
      }
    }
    assert DefaultCluster(old(cmd.options), clusters) == Ok(cmd.options);
    res := SparkRequestOf(cmd.options, project, script, scriptPath, arguments, gitRef);
  }

  /** The code is synced before the clusters are fetched: without
      `--project` and without a cluster named, both happen, in that order
      (jobs:run fetches first). */
  lemma SyncBeforeDefaulting(opts: Options, project: Option<Value>, script: string, scriptPath: Option<string>,
                             arguments: seq<string>, clusters: seq<Cluster>, synced: Result<string>)
    requires !Truthy(opts, ProjectKey) && !Truthy(opts, ClusterIdKey) && !Truthy(opts, ClusterSizeKey)
    requires synced.Ok?
    ensures SparkOutcome(opts, project, script, scriptPath, arguments, clusters, synced).steps
         == [CodeSynced, ClustersFetched]
  {
    assert CheckExistingCluster(opts) == Ok(());
    assert GitRef(opts, synced) == Ok(Str(synced.value));
  }

  /** Unlike jobs:run, a cluster-type flag without a size does not clash
      with the free cluster chosen for it: the options are checked before
      the default is set, and the job goes to that cluster. */
  lemma {:induction false} TypeFlagWithFreeClusterRuns(opts: Options, project: Option<Value>, script: string,
                                    scriptPath: Option<string>, arguments: seq<string>,
                                    clusters: seq<Cluster>, synced: Result<string>, i: nat)
    requires !HasKey(opts, ClusterIdKey) && !HasKey(opts, ClusterSizeKey) && Truthy(opts, SingleJobKey)
    requires Truthy(opts, ProjectKey)
    requires forall j :: 0 <= j < |clusters| ==> clusters[j].runningJobs.Some?
    requires i < |clusters| && Free(clusters[i])
    ensures var l := SparkOutcome(opts, project, script, scriptPath, arguments, clusters, synced);
      l.res.Ok? && l.res.value.ExistingSparkCluster?
      && l.res.value.clusterId == Str(clusters[LargestFree(clusters).value].clusterId)
  {
    var b := LargestFree(clusters).value;
    var o := Put(opts, ClusterIdKey, Str(clusters[b].clusterId));
    assert FreeClusterChoice(clusters) == Ok(Some(clusters[b]));
    assert DefaultCluster(opts, clusters) == Ok(o);
    PutLookupSame(opts, ClusterIdKey, Str(clusters[b].clusterId));
    PutLookupOther(opts, ClusterIdKey, Str(clusters[b].clusterId), ClusterSizeKey);
    assert CheckExistingCluster(opts) == Ok(());
    var gitRef := GitRef(opts, synced).value;
    assert SparkOutcome(opts, project, script, scriptPath, arguments, clusters, synced)
        == Defaulted(opts, [], project, script, scriptPath, arguments, clusters, gitRef);
  }

  // ---------------------------------------------------------------------
  // spark --project and the script's path
  // ---------------------------------------------------------------------

  /** The request as written: `script.rel_path` is read on the script object,
      after the cluster type, size and spot flag on a new cluster and first
      on an existing one. */
  function SparkRequestAsWritten(o: Options, project: Option<Value>, script: string, found: Option<Script>,
                                 arguments: seq<string>, gitRef: Value): (r: Result<SparkRequest>)
    requires Truthy(o, ClusterIdKey) || Truthy(o, ClusterSizeKey)
    ensures found.Some? ==> r == SparkRequestOf(o, project, script, Some(found.value.relPath), arguments, gitRef)
    ensures found.None? ==> r.Err?
    ensures found.None? && (Truthy(o, ClusterSizeKey) ==>
                              ClusterTypeOf(o).Ok? && ClusterSize(Lookup(o, ClusterSizeKey).value).Ok?)
            ==> r == Err(NilRelPathMessage)
  {
    if Truthy(o, ClusterSizeKey) then
      var clusterType :- ClusterTypeOf(o);
      var size :- ClusterSize(Lookup(o, ClusterSizeKey).value);
      var spot := if Truthy(o, SpotKey) then Lookup(o, SpotKey).value else Bool(false);
      var path :- ScriptPathAsWritten(found);
      Ok(NewSparkCluster(project, script, gitRef, size, clusterType, Some(path), arguments, spot))
    else
      var path :- ScriptPathAsWritten(found);
      Ok(ExistingSparkCluster(project, script, gitRef, Lookup(o, ClusterIdKey).value, Some(path), arguments))
  }

  /** spark after the script is known, as written: the request reads the
      path of the script object it is given. */
  function SparkOutcomeAsWritten(opts: Options, project: Option<Value>, script: string, found: Option<Script>,
                                 arguments: seq<string>, clusters: seq<Cluster>, synced: Result<string>): SparkLaunched
  {
    if CheckExistingCluster(opts).Err? then SparkLaunched(Err(CheckExistingCluster(opts).msg), [], opts)
    else
      var synchronised := if Truthy(opts, ProjectKey) then [] else [CodeSynced];
      match GitRef(opts, synced)
      case Err(e) => SparkLaunched(Err(e), synchronised, opts)
      case Ok(gitRef) =>
        var steps := synchronised + (if Truthy(opts, ClusterIdKey) || Truthy(opts, ClusterSizeKey) then [] else [ClustersFetched]);
        match DefaultCluster(opts, clusters)
        case Err(e) => SparkLaunched(Err(e), steps, opts)
        case Ok(o) => SparkLaunched(SparkRequestAsWritten(o, project, script, found, arguments, gitRef), steps, o)
  }

  /** With a script looked up, the code as written and the model agree. */
  lemma SparkAsWrittenWithScript(opts: Options, project: Option<Value>, script: string, found: Script,
                                 arguments: seq<string>, clusters: seq<Cluster>, synced: Result<string>)
    ensures SparkOutcomeAsWritten(opts, project, script, Some(found), arguments, clusters, synced)
         == SparkOutcome(opts, project, script, Some(found.relPath), arguments, clusters, synced)
  {
  }

  /** As written, a spark run with no script object fails wherever the
      model's run succeeds, after the same steps. */
  lemma {:induction false} SparkAsWrittenFailsWithoutScript(opts: Options, project: Option<Value>, script: string,
                                         arguments: seq<string>, clusters: seq<Cluster>, synced: Result<string>)
    ensures var c := SparkOutcome(opts, project, script, None, arguments, clusters, synced);
      var w := SparkOutcomeAsWritten(opts, project, script, None, arguments, clusters, synced);
      w.steps == c.steps && w.options == c.options
      && (c.res.Ok? ==> w.res == Err(NilRelPathMessage))
  {
    if CheckExistingCluster(opts).Ok? && GitRef(opts, synced).Ok? && DefaultCluster(opts, clusters).Ok? {
      var gitRef := GitRef(opts, synced).value;
      var o := DefaultCluster(opts, clusters).value;
      assert SparkOutcome(opts, project, script, None, arguments, clusters, synced).res
          == SparkRequestOf(o, project, script, None, arguments, gitRef);
    }
  }

  /** With the path sent only when a script was looked up, a `spark
      --project` run on a new cluster with acceptable options is requested
      from the branch given (master by default) with no script path, without
      syncing code or fetching clusters. */
  lemma ProjectSparkSubmits(opts: Options, project: Option<Value>, script: string,
                            arguments: seq<string>, clusters: seq<Cluster>, synced: Result<string>)
    requires Truthy(opts, ProjectKey) && Truthy(opts, ClusterSizeKey) && !HasKey(opts, ClusterIdKey)
    requires ClusterTypeOf(opts).Ok? && ClusterSize(Lookup(opts, ClusterSizeKey).value).Ok?
    ensures var c := SparkOutcome(opts, project, script, None, arguments, clusters, synced);
      c.res.Ok? && c.res.value.NewSparkCluster? && c.res.value.scriptPath == None && c.steps == []
      && c.res.value.gitRef == (if Truthy(opts, BranchKey) then Lookup(opts, BranchKey).value else Str("master"))
  {
    assert CheckExistingCluster(opts) == Ok(());
    var gitRef := if Truthy(opts, BranchKey) then Lookup(opts, BranchKey).value else Str("master");
    assert GitRef(opts, synced) == Ok(gitRef);
    assert DefaultCluster(opts, clusters) == Ok(opts);
  }

  /** As written, that run fails instead: no script was looked up. */
  lemma ProjectSparkFailsAsWritten(opts: Options, project: Option<Value>, script: string,
                                   arguments: seq<string>, clusters: seq<Cluster>, synced: Result<string>)
    requires Truthy(opts, ProjectKey) && Truthy(opts, ClusterSizeKey) && !HasKey(opts, ClusterIdKey)
    requires ClusterTypeOf(opts).Ok? && ClusterSize(Lookup(opts, ClusterSizeKey).value).Ok?
    ensures SparkOutcome(opts, project, script, None, arguments, clusters, synced).res.Ok?
    ensures SparkOutcomeAsWritten(opts, project, script, None, arguments, clusters, synced).res == Err(NilRelPathMessage)
  {
    ProjectSparkSubmits(opts, project, script, arguments, clusters, synced);
    SparkAsWrittenFailsWithoutScript(opts, project, script, arguments, clusters, synced);
  }

  /** The same run on an existing cluster is requested with no script path. */
  lemma ProjectSparkOnClusterSubmits(opts: Options, project: Option<Value>, script: string,
                                     arguments: seq<string>, clusters: seq<Cluster>, synced: Result<string>)
    requires Truthy(opts, ProjectKey) && Truthy(opts, ClusterIdKey) && !HasKey(opts, ClusterSizeKey)
    requires CheckExistingCluster(opts).Ok?
    ensures var c := SparkOutcome(opts, project, script, None, arguments, clusters, synced);
      c.res.Ok? && c.res.value.ExistingSparkCluster? && c.res.value.scriptPath == None && c.steps == []
      && c.res.value.clusterId == Lookup(opts, ClusterIdKey).value
  {
    var gitRef := if Truthy(opts, BranchKey) then Lookup(opts, BranchKey).value else Str("master");
    assert GitRef(opts, synced) == Ok(gitRef);
    assert DefaultCluster(opts, clusters) == Ok(opts);
  }

  /** As written, it fails where spark.rb reads the path, first among the
      existing-cluster call's arguments. */
  lemma ProjectSparkOnClusterFailsAsWritten(opts: Options, project: Option<Value>, script: string,
                                            arguments: seq<string>, clusters: seq<Cluster>, synced: Result<string>)
    requires Truthy(opts, ProjectKey) && Truthy(opts, ClusterIdKey) && !HasKey(opts, ClusterSizeKey)
    requires CheckExistingCluster(opts).Ok?
    ensures SparkOutcome(opts, project, script, None, arguments, clusters, synced).res.Ok?
    ensures SparkOutcomeAsWritten(opts, project, script, None, arguments, clusters, synced).res == Err(NilRelPathMessage)
  {
    ProjectSparkOnClusterSubmits(opts, project, script, arguments, clusters, synced);
    SparkAsWrittenFailsWithoutScript(opts, project, script, arguments, clusters, synced);
  }
}
