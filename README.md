# mortar, modelled in Dafny

This project models the core of the Mortar command-line client (the Ruby gem
`mortar`): how it turns a local project directory into a pushed git commit
that the Mortar service runs, and the decision logic around that hand-over.
Each Dafny module follows one Ruby file of the client:

| module | Ruby file | what it models |
|---|---|---|
| `Common` | (shared) | Option and Result, the Ruby string operations the client uses (`split`, `strip`, `include?`, `to_i`, `File.basename`), and Ruby's insertion-ordered Hash as an association list |
| `World` | lib/mortar/git.rb | the files and git repositories the client acts on, as values; every git command and file operation the client issues is a function from one state to the next, or to git's error |
| `LocalFiles` | lib/mortar/local/installutil.rb, lib/mortar/s3.rb | the local file system as a class whose methods write, remove and create files and directories in place |
| `GitText` | lib/mortar/git.rb | the text read back from git: the version check, the error rule of the command wrapper, `git remote -v`, `git branch`, the stash message, `git status --porcelain` |
| `Manifest` | lib/mortar/git.rb | the project manifest: its name, the edits that make it valid, and the path list a snapshot copies |
| `GitClient` | lib/mortar/git.rb | the git client object: the snapshot branch, the retried push with Fibonacci sleeps, the embedded-project mirror (rebuild, branch choice, refill, publish) and the fork-drift check |
| `CommandBase` | lib/mortar/command/base.rb | Pig parameters, the defaults file, the project chosen from the git remotes, the structure checks and the hand-over of the code before a job runs |
| `JobsCommand` | lib/mortar/command/jobs.rb | `jobs:run` (script type, default cluster, option conflicts, cluster type, git ref, the request) and the progress bar of `jobs:status` |
| `SparkCommand` | lib/mortar/command/spark.rb | `spark`: the same option rules, with the code synced before the cluster is defaulted |
| `ConfigCommand` | lib/mortar/command/config.rb | `config`, `config:get` and `config:set` |
| `LocalParams` | lib/mortar/local/params.rb | merging parameter lists, and the automatic parameters |
| `S3Download` | lib/mortar/s3.rb | S3 path splitting, the file filter under a key, and the download loop |
| `InstallUtil` | lib/mortar/local/installutil.rb | install directories, the install-date record, the newer-version rule, the bounded HTTP call and the log reset |
| `LocalController` | lib/mortar/local/controller.rb | the AWS-key check, the install sequence, the local README and the `.gitignore` update |
| `Projects` | lib/mortar/project.rb | required directories, embedded projects, the entity scan and the executable paths |
| `PigVersions` | lib/mortar/pigversion.rb | the two Pig versions and `from_string` |

What the client gets from outside is a parameter of the model:
- the hosted repositories (a map from URL to branches);
- whether each push attempt's connection holds (a sequence of booleans, used one per attempt);
- the commit hashes and UUIDs git and `Mortar::UUID` would produce;
- the API's answers (clusters, config vars, S3 listings, HTTP responses);
- the environment, passed as a map and returned updated;
- the clock, as a number of seconds.

Sleeps are recorded in a trace instead of being taken. Objects whose fields
the Ruby code updates are Dafny classes: the git client's retry counters
(`GitClient.Git`), the command's options (`CommandBase.Command`) and the local
file tree (`LocalFiles.FileTree`). Loops in the Ruby code are `while` loops
with invariants. The pure parts are functions, with lemmas beside them.

## Model

| member | source | states |
|---|---|---|
| PigVersions.PigVersion.Name | lib/mortar/pigversion.rb:43-49 | the name is "pig-" followed by exactly the version string |
| PigVersions.FromString | lib/mortar/pigversion.rb:24-32 | succeeds exactly on "0.9" and "0.12", giving the version of that string; any other string fails with "Unsupported pig version: " and the string |
| PigVersions.FromStringVersion | lib/mortar/pigversion.rb:24-67 | every version is read back from its own version string |
| PigVersions.ArchivesNamedAfterVersion | lib/mortar/pigversion.rb:19-67 | each archive is the version's name plus ".tar.gz"; two different versions never share a name, an archive or a download path |
| LocalParams.NameSet | lib/mortar/local/params.rb:61 | the set holds exactly the names of the listed parameters |
| LocalParams.WithoutNames | lib/mortar/local/params.rb:63 | keeps exactly the entries whose name is not in the given set, and never grows the list |
| LocalParams.MergeParameters | lib/mortar/local/params.rb:58-65 | the second list comes first, whole and in order; after it comes the first list, in its order, without the entries whose name the second list uses |
| LocalParams.WithoutNamesOne | lib/mortar/local/params.rb:63 | a single entry is kept exactly when its name is not excluded |
| LocalParams.WithoutNamesAppend | lib/mortar/local/params.rb:63 | filtering two lists joined is filtering each and joining the results, so the order of the kept entries is the order they had |
| LocalParams.MergeWithEmpty | lib/mortar/local/params.rb:60-65 | merging with an empty list on either side returns the other list unchanged |
| LocalParams.MergeNamesDistinct | lib/mortar/local/params.rb:58-65 | when neither list repeats a name, the merged list does not repeat one either: a name both lists use keeps only the second list's entry |
| LocalParams.WithoutNamesDistinct | lib/mortar/local/params.rb:63 | filtering a list whose names are unique keeps them unique |
| LocalParams.AutomaticParameters | lib/mortar/local/params.rb:26-56 | ten parameters in the order they are set; user and API key first; the escaped e-mail from the environment when it is set, otherwise the S3-safe user; the project root from the environment, and the root is written into the environment when it was missing; the three access-key names carry AWS_ACCESS_KEY and the three secret names carry AWS_SECRET_KEY |
| LocalParams.AutomaticNamesDistinct | lib/mortar/local/params.rb:27-51 | no two automatic parameters share a name, as the keys of one Hash |
| LocalParams.AutomaticParametersStable | lib/mortar/local/params.rb:38-43 | a second call with the environment the first left behind gives the same parameters and environment, whatever project root it is offered |
| Projects.ElementName | lib/mortar/project.rb:146-148 | the basename with the extension taken off when it ends with it and is longer; a basename that is only the extension is kept; the name never contains '/' |
| Projects.Matching | lib/mortar/project.rb:153 | exactly the listed paths the glob `**/*<ext>` matches, prefixed with the directory, and no more entries than were listed |
| Projects.Names | lib/mortar/project.rb:154 | one element name per scanned path, in order |
| Projects.DuplicatesSpec | lib/mortar/project.rb:157-158 | a name is reported as duplicate exactly when it occurs twice and was not reported before |
| Projects.DuplicatesEmpty | lib/mortar/project.rb:157-159 | there is nothing to report exactly when no name occurs twice |
| Projects.Zip | lib/mortar/project.rb:154 | pairs each element name with its path, index by index |
| Projects.Scan | lib/mortar/project.rb:151-164 | the scan fails exactly when two scanned files share an element name |
| Projects.Elements | lib/mortar/project.rb:150-169 | a missing directory gives an empty table when the entity is optional and "Unable to find <entity> directory in project" otherwise; a present one is scanned |
| Projects.ScanMessage | lib/mortar/project.rb:156-161 | a failed scan's message lists every name found twice, and only those |
| Projects.ScanTable | lib/mortar/project.rb:163-164 | a successful scan has one entry per scanned file, in listing order, keyed by element name, with no key twice |
| Projects.ScanLookup | lib/mortar/project.rb:136-138 | looking up a scanned file's element name gives that file's path |
| Projects.LuigiPathNames | lib/mortar/project.rb:233-239 | the element name of a Luigi script's executable path, under ".py", is the script's name |
| Projects.SparkPathNames | lib/mortar/project.rb:241-247 | the element name of a Spark script's executable path is the script's name |
| Projects.PigPathNames | lib/mortar/project.rb:249-263 | the element name of a Pig or control script's executable path, under ".pig", is the script's name, and its directory is the relative path |
| ConfigCommand.Sort | lib/mortar/command/config.rb:50 | the keys come out in ascending order and are a permutation of the keys given |
| ConfigCommand.Stringify | lib/mortar/command/config.rb:48 | every value is replaced by its text; the keys, their number and their order are unchanged |
| ConfigCommand.Index | lib/mortar/command/config.rb:41-58 | no vars gives "<project> has no config vars."; without `--shell`, a "<project> Config Vars" header above every var with its value as text, in the API's order; with `--shell`, the shell lines of the texts |
| ConfigCommand.StringsOf | lib/mortar/command/config.rb:48 | each var keeps its key and position, and its value becomes its text |
| ConfigCommand.ShellLinesShape | lib/mortar/command/config.rb:49-52 | one `KEY=value` line per var, the keys in ascending order and a permutation of the vars' keys, each line carrying that key's own value |
| ConfigCommand.Get | lib/mortar/command/config.rb:69-83 | no KEY argument gives the usage error; otherwise it succeeds exactly when some var has that key, and then answers the text of such a var's value; a missing key gives "Config var <key> is not defined for project <project>." |
| ConfigCommand.GetAgreesWithIndex | lib/mortar/command/config.rb:41-83 | config:get answers the same text that config lists for the first var of that key |
| ConfigCommand.Pair | lib/mortar/command/config.rb:106 | splits an argument at its first '=': the key holds no '=' and key, '=' and value give back the argument |
| ConfigCommand.Pairs | lib/mortar/command/config.rb:105-109 | one key and value pair per argument, in argument order |
| ConfigCommand.Set | lib/mortar/command/config.rb:100-109 | succeeds exactly when there is at least one argument and every argument holds '='; otherwise fails with the usage message |
| ConfigCommand.SetLastWins | lib/mortar/command/config.rb:105-109 | the vars sent name each key once, and each key holds the value of the last argument that sets it |
| ConfigCommand.SetSplitsAtFirstEquals | lib/mortar/command/config.rb:106-107 | every argument is its key, '=' and its value, and the key holds no '=', so the value keeps any later '=' |
| LocalController.VerifyAwsKeys | lib/mortar/local/controller.rb:74-84 | answers true exactly when both AWS_ACCESS_KEY and AWS_SECRET_KEY are set, or MORTAR_IGNORE_AWS_KEYS is |
| LocalController.SetAwsKeys | lib/mortar/local/controller.rb:111-114 | both keys are written into the environment and every other variable is kept |
| LocalController.KeysSetPassCheck | lib/mortar/local/controller.rb:74-114 | once the keys are set, verify_aws_keys passes whatever the environment held before |
| LocalController.ReadmeOnlyIfAbsent | lib/mortar/local/controller.rb:163-182 | an existing README is never overwritten, a missing one gets the fixed text, and writing it twice is writing it once |
| LocalController.WriteLocalReadme | lib/mortar/local/controller.rb:163-182 | the files become the README-written files of the old state, and the directories are unchanged |
| LocalController.MissingMentions | lib/mortar/local/controller.rb:194-204 | after the appended lines, every entry is mentioned, whatever came before |
| LocalController.MissingLines | lib/mortar/local/controller.rb:194-204 | what is appended is made of whole lines |
| LocalController.MissingNothing | lib/mortar/local/controller.rb:194-204 | nothing is appended exactly when the original contents already mention every entry |
| LocalController.UpdateShape | lib/mortar/local/controller.rb:184-207 | the update keeps the old contents as a prefix, ends with a line break, and mentions every entry |
| LocalController.UnchangedIff | lib/mortar/local/controller.rb:184-207 | the update changes nothing exactly when the file already ends a line and mentions every entry |
| LocalController.UpdateIdempotent | lib/mortar/local/controller.rb:184-207 | updating a second time changes nothing |
| LocalController.GitignoreApplied | lib/mortar/local/controller.rb:184-185 | the update never adds or removes a file |
| LocalController.GitignoreAppliedTwice | lib/mortar/local/controller.rb:184-207 | without a `.gitignore` nothing is written; with one, its old contents stay in front, it ends a line, it mentions the install directory, "logs" and "illustrate-output", and a second run changes nothing |
| LocalController.EnsureLocalInstallDirsInGitignore | lib/mortar/local/controller.rb:184-207 | the files become the update of the old files, and the directories are unchanged |
| LocalController.AppendMissing | lib/mortar/local/controller.rb:194-204 | the three `puts` leave the file as the update of its original contents |
| LocalController.AppendEntry | lib/mortar/local/controller.rb:194-196 | an entry is appended, as a line, exactly when the original contents do not mention it |
| LocalController.PythonFailure | lib/mortar/local/controller.rb:135-148 | no failure exactly when python, virtualenv and the project environment all pass; otherwise the first that fails |
| LocalController.Configure | lib/mortar/local/controller.rb:121-161 | without Java nothing is installed or written; with Java, Pig is installed first, at 0.9 when no version is given; it succeeds exactly when all the Python checks pass, and otherwise fails at the first failing one, with only Pig installed and the files untouched; Jython is installed exactly on success and Sqoop exactly on success when asked; success writes the README and updates the `.gitignore` |
| LocalController.InstallAndConfigure | lib/mortar/local/controller.rb:121-161 | what is installed and the files afterwards are those of Configure, and the error is the failure's message |
| LocalController.InstallSteps | lib/mortar/local/controller.rb:121-161 | the failure, what is installed, and the new files are Configure's |
| LocalController.PythonChecks | lib/mortar/local/controller.rb:135-148 | the failure reported is the first failing Python check |
| LocalController.FinishInstall | lib/mortar/local/controller.rb:150-160 | Jython, then Sqoop when asked, are appended to what is installed; the README is written and the `.gitignore` updated |
| InstallUtil.FileJoin | lib/mortar/local/installutil.rb:42 | two parts without a slash between them are joined with exactly one |
| InstallUtil.LocalInstallDirectory | lib/mortar/local/installutil.rb:41-43 | MORTAR_LOCAL_DIR when set; otherwise `.mortar-local` under the project root |
| InstallUtil.InstallFileFor | lib/mortar/local/installutil.rb:94-96 | the marker is `install-date.txt` in the dependency's subdirectory of the install directory |
| InstallUtil.NoteInstall | lib/mortar/local/installutil.rb:75-82 | the marker of that dependency is written with the current epoch and a line break, and nothing else changes |
| InstallUtil.InstallDate | lib/mortar/local/installutil.rb:84-92 | there is a date exactly when the marker file exists |
| InstallUtil.InstallDateRoundTrip | lib/mortar/local/installutil.rb:75-92 | the date noted is the date read back |
| InstallUtil.NoteInstallOthers | lib/mortar/local/installutil.rb:75-96 | noting one dependency leaves the date of every other dependency as it was |
| InstallUtil.IsNewerVersion | lib/mortar/local/installutil.rb:212-223 | true without an install; false when the archive has no date; otherwise true exactly when the install's date is earlier than the archive's |
| InstallUtil.NewerAfterInstall | lib/mortar/local/installutil.rb:212-223 | once a dependency is noted, a newer version is exactly an archive dated after the install |
| InstallUtil.QueryFields | lib/mortar/local/installutil.rb:149-158 | the test name is sent whenever it is set; the command and the logged-in user only when a command is given |
| InstallUtil.Prepend | lib/mortar/local/installutil.rb:175-180 | after a redirect or a retry, the request just sent comes first, then the later requests in order, and the sleep is added |
| InstallUtil.MakeCallBounded | lib/mortar/local/installutil.rb:139-184 | a call that starts sends at least one request and never more than the redirects and retries left, less one |
| InstallUtil.MakeCallRequests | lib/mortar/local/installutil.rb:139-184 | the first request carries the url, the method and the query with the command; every later one carries the query without it; every request uses the same method; at most one sleep of two seconds per request |
| InstallUtil.MakeCallAnswer | lib/mortar/local/installutil.rb:175-183 | a call that returns returns the answer to its last request, which is neither a redirect (300 to 303) nor a server error (500 to 599) |
| InstallUtil.DirectAnswer | lib/mortar/local/installutil.rb:125-132 | get_resource and head_resource return a first answer that is neither a redirect nor a server error after one request, without sleeping |
| InstallUtil.EndlessRedirects | lib/mortar/local/installutil.rb:140-142 | a server that always redirects is asked once per redirect left, without sleeping, and the call raises "Too many redirects.  Last url: " with the last Location |
| InstallUtil.RedirectStep | lib/mortar/local/installutil.rb:176-177 | a redirect sends the request and goes on at the Location, without the command and with one redirect fewer left |
| InstallUtil.RedirectsFollowLocation | lib/mortar/local/installutil.rb:176-177 | each request after a redirect goes to the Location of the previous answer |
| InstallUtil.EndlessErrors | lib/mortar/local/installutil.rb:144-146 | a server that always fails is asked at the same url once per retry left, sleeping two seconds after each failure, and the call raises "Server Error at " with the url |
| InstallUtil.RequestsBounded | lib/mortar/local/installutil.rb:139-184 | a fresh call sends at most nine requests, whatever the server answers |
| InstallUtil.ResetLocalLogs | lib/mortar/local/installutil.rb:256-262 | an existing log directory is removed with everything under it, and then `logs` and `logs/udf` are created; creating either fails when its name is already taken, and a failure leaves `logs` created exactly when it was `logs/udf` that failed |
| S3Download.PathOf | lib/mortar/s3.rb:45 | the path part of a parsed URI is the longest prefix before a query or fragment mark, and the character after it is such a mark |
| S3Download.GetBucketAndKey | lib/mortar/s3.rb:42-61 | an unparsable path gives the parser's message plus the underscore advice; a parsed path that is not `s3://` with a host and a non-empty key gives the invalid-path message; a success has a non-empty bucket and key |
| S3Download.BucketAndKeyOfPath | lib/mortar/s3.rb:42-61 | `s3://bucket/key` with a host-name bucket and a key without `?`/`#` splits into exactly that bucket and key, however many `/` the key holds |
| S3Download.AcceptedPathShape | lib/mortar/s3.rb:42-61 | conversely, an accepted path begins with `s3://`, the bucket, `/` and the key, followed by nothing or by a query or fragment |
| S3Download.RemoveSlash | lib/mortar/s3.rb:64-69 | one trailing `/` is dropped and a string without one is kept |
| S3Download.RemoveSlashInverse | lib/mortar/s3.rb:64-69 | removing the slash after appending one gives the key back |
| S3Download.PathBasename | lib/mortar/s3.rb:75 | the basename is slash-free (or `/` itself) and a slash-free path is its own basename |
| S3Download.FileName | lib/mortar/s3.rb:71-77 | a key without `/` is its own file name; otherwise the name holds no `/` |
| S3Download.FileNameInFolder | lib/mortar/s3.rb:71-77 | the file name of `folder/name` is `name` |
| S3Download.IsNotFolder | lib/mortar/s3.rb:89-94 | a path ending in `/` or holding `_$folder$` is a folder; otherwise a path no longer than the key raises (Ruby's nil index), and a longer one is a file exactly when no `/` follows the key and its separator |
| S3Download.IsFile | lib/mortar/s3.rb:79-87 | raises exactly when is_not_folder does; otherwise true exactly when not a folder and the basename is not hidden (`.` or `_` first) |
| S3Download.FilesDirectlyUnderKey | lib/mortar/s3.rb:79-98 | under a key, a name directly inside is a file unless hidden; a name one folder deeper, or ending in `/`, is not |
| S3Download.IsFileExampleMarker | lib/mortar/s3.rb:89-94 | `folder/file_$folder$` is not a file |
| S3Download.IsFileExampleFolder | lib/mortar/s3.rb:89-94 | `folder/folder/` is not a file |
| S3Download.Exact | lib/mortar/s3.rb:117-118 | the index found is the first object stored under exactly the key; none is found only when no object has that key |
| S3Download.ListedMembers | lib/mortar/s3.rb:120-127 | an object is collected exactly when it is in the listing, lies under the prefix and is a file |
| S3Download.ListingIsFileDefined | lib/mortar/s3.rb:122-123 | testing a listed object longer than the prefix never raises |
| S3Download.GetS3Objects | lib/mortar/s3.rb:113-129 | the loop returns the exactly-stored object when there is one, else the listed files in listing order |
| S3Download.S3ObjectsFound | lib/mortar/s3.rb:113-129 | a key stored exactly gives that one object; otherwise the result holds exactly the listed objects under the key that are files |
| S3Download.Writes | lib/mortar/s3.rb:147-154 | one write per object, in order, to `output` in append mode when concatenating, else to the object's file name with truncation |
| S3Download.Wrote | lib/mortar/s3.rb:131-137 | a write adds its target and leaves every other local file as it was |
| S3Download.WroteAll | lib/mortar/s3.rb:148-154 | a file no write targets keeps its content |
| S3Download.DownloadS3 | lib/mortar/s3.rb:140-158 | concatenating first removes `output`; no object gives the no-contents error; otherwise each object is written in turn and the writes are returned; directories are unchanged |
| S3Download.ConcatOutput | lib/mortar/s3.rb:140-158 | when concatenating, the one `output` file holds every object's content in order and nothing it held before |
| S3Download.ConcatWrites | lib/mortar/s3.rb:148-154 | appending every object to one target leaves it holding their contents in order |
| S3Download.SeparateOutputs | lib/mortar/s3.rb:140-158 | without concatenation, an object whose file name no later object shares ends up as that file's content |
| S3Download.LastWriteWins | lib/mortar/s3.rb:153 | a truncating write not followed by another to the same target decides that file's content |
| SparkCommand.SparkRequestOf | lib/mortar/command/spark.rb:97-120 | with a cluster size, a new-cluster request with the type from the flags (both flags rejected), the size and spot defaulting to false; otherwise a request for the named existing cluster; project, script, commit, script path and arguments passed on unchanged |
| SparkCommand.Defaulted | lib/mortar/command/spark.rb:80-95 | clusters are fetched only when neither a cluster id nor a size is given, and the options afterwards are the defaulted ones |
| SparkCommand.SparkIndex | lib/mortar/command/spark.rb:46-58 | no script argument gives the usage error; with `--project` the script is named as given; otherwise the project name and the validated script are used, and a validation error is returned as is, before anything else happens |
| SparkCommand.LaunchSpark | lib/mortar/command/spark.rb:62-78 | the existing-cluster conflicts are checked first, then the commit is taken from `--branch` (or `master`) with `--project` and from the sync otherwise, and its failure stops the run |
| SparkCommand.DefaultAndRequest | lib/mortar/command/spark.rb:80-120 | without a cluster named, the largest free cluster is chosen, or a new cluster of size 2, and the request is built from the options that result |
| SparkCommand.SyncBeforeDefaulting | lib/mortar/command/spark.rb:77-81 | without `--project` and without a cluster named, the code is synced before the clusters are fetched |
| SparkCommand.TypeFlagWithFreeClusterRuns | lib/mortar/command/spark.rb:62-95 | a cluster-type flag without size or id, with a free cluster available, runs the job on the largest free cluster, because the conflict check comes before the default |
| SparkCommand.SparkRequestAsWritten | lib/mortar/command/spark.rb:97-120 | the request as written reads the script object's path after the cluster type and size on a new cluster and first on an existing one: with a script it is the model's request for that script's path; without one it always fails, and with the `nil.rel_path` error once the cluster checks pass |
| SparkCommand.SparkAsWrittenWithScript | lib/mortar/command/spark.rb:62-120 | when a script was looked up, the run as written and the model's run take the same steps and end the same way |
| SparkCommand.SparkAsWrittenFailsWithoutScript | lib/mortar/command/spark.rb:62-120 | without a script object, the run as written takes the model's steps and fails with the `nil.rel_path` error wherever the model's run is requested |
| SparkCommand.ProjectSparkSubmits | lib/mortar/command/spark.rb:46-115 | with the path sent only for a looked-up script, a `--project` run with a size and valid flags is requested on a new cluster from the given branch (or master) with no script path, and without syncing or fetching |
| SparkCommand.ProjectSparkFailsAsWritten | lib/mortar/command/spark.rb:108-115 | as written, that run fails with the `nil.rel_path` error |
| SparkCommand.ProjectSparkOnClusterSubmits | lib/mortar/command/spark.rb:46-120 | with the path sent only for a looked-up script, a `--project` run on a named cluster without conflicting flags is requested on that cluster with no script path, and without syncing or fetching |
| SparkCommand.ProjectSparkOnClusterFailsAsWritten | lib/mortar/command/spark.rb:116-120 | as written, that run on a named cluster fails with the `nil.rel_path` error |
| JobsCommand.LargestFree | lib/mortar/command/jobs.rb:119-121 | the cluster chosen is free (RUNNING, no running job), no free cluster is larger, and no earlier free cluster is as large; none is chosen exactly when no cluster is free |
| JobsCommand.FreeClusterChoice | lib/mortar/command/jobs.rb:117-121 | a cluster record without `running_jobs` fails the choice with Ruby's nil-length error; otherwise the largest free cluster, or none exactly when none is free |
| JobsCommand.DefaultCluster | lib/mortar/command/jobs.rb:116-131 | options naming a cluster id or size are kept; otherwise afterwards they name one, and only a failed cluster choice is an error |
| JobsCommand.DefaultClusterChoice | lib/mortar/command/jobs.rb:116-131 | the default is the first largest free cluster's id, or size 2 when none is free, and no other option changes |
| JobsCommand.FirstGiven | lib/mortar/command/jobs.rb:134-138 | the first key of the list that is set, with none before it; none exactly when no key is set |
| JobsCommand.CheckExistingCluster | lib/mortar/command/jobs.rb:133-139 | with `--clusterid`, a cluster size or a cluster-type flag is an error naming the first of them set, in the order clustersize, singlejobcluster, permanentcluster; nothing else is |
| JobsCommand.FirstConflict | lib/mortar/command/jobs.rb:134-138 | the loop over the excluded options answers the first one set, or none |
| JobsCommand.ClusterTypeOf | lib/mortar/command/jobs.rb:156-165 | both type flags are an error; `--singlejobcluster` alone is single-job, `--permanentcluster` alone permanent, neither persistent (each both ways) |
| JobsCommand.ClusterSize | lib/mortar/command/jobs.rb:159 | text is read as its leading number, a number is kept, and values without `to_i` are an error |
| JobsCommand.GitRef | lib/mortar/command/jobs.rb:141-149 | with `--project`, the branch given or `master`; otherwise the synced commit, or the sync's error |
| JobsCommand.PigVersionOf | lib/mortar/command/base.rb:574-577 | the version is `0.9` by default, and a given one is accepted exactly when it is `0.9` or `0.12` |
| JobsCommand.Parameters | lib/mortar/command/base.rb:107-137 | the parameters fail exactly when the parameter file has a malformed line, with the malformed-file message, or when the `parameter` option has no `split`, with its NoMethodError text; otherwise they are the file's entries merged with the option's texts |
| JobsCommand.DefaultsParameterText | lib/mortar/command/base.rb:124-137 | a `parameter` text set by a defaults file is sent as one parameter split at its first `=`, and `parameter=true` fails |
| JobsCommand.LastDot | lib/mortar/command/jobs.rb:90-95 | the index of the last `.`, and none exactly when there is no `.` |
| JobsCommand.Extname | lib/mortar/command/jobs.rb:90-95 | the extension is empty exactly when no `.` of the basename has something other than `.` before it; otherwise it is the basename's suffix that starts at a `.` and holds no other `.` |
| JobsCommand.Stem | lib/mortar/command/jobs.rb:92 | the stem followed by the extension is the basename |
| JobsCommand.GuessScript | lib/mortar/command/jobs.rb:90-100 | succeeds exactly for a `.pig` or `.py` extension, is a control script exactly for `.py`, names the script by its basename less the extension, and otherwise fails with the guessing message |
| JobsCommand.GuessScriptOfPath | lib/mortar/command/jobs.rb:90-100 | `dir/name.pig` is the pig script `name`, and `dir/name.py` the control script `name` |
| JobsCommand.JobRequest | lib/mortar/command/jobs.rb:151-183 | a new-cluster request exactly when a size is set, with the type, size and spot flag; otherwise the existing cluster named; both carry the notify flag, the control flag, the commit, the script path and the parameters; it fails exactly when the type, size, Pig version or parameters fail |
| JobsCommand.Checked | lib/mortar/command/jobs.rb:133-184 | a conflict stops the run before the sync; a run that succeeds synced the code exactly when `--project` was not given, after any fetch |
| JobsCommand.Launch | lib/mortar/command/jobs.rb:116-184 | the command's options end as the defaulted ones, and the result and steps are those of the run after the script is known |
| JobsCommand.LaunchChecked | lib/mortar/command/jobs.rb:133-184 | the conflict check, then the commit, then the request, as Checked states |
| JobsCommand.Submit | lib/mortar/command/jobs.rb:154-184 | the request sent is JobRequest's |
| JobsCommand.SubmitNewCluster | lib/mortar/command/jobs.rb:155-174 | the new-cluster branch sends JobRequest's request |
| JobsCommand.SubmitSized | lib/mortar/command/jobs.rb:166-174 | once the size and type are known, the request is JobRequest's |
| JobsCommand.SubmitExistingCluster | lib/mortar/command/jobs.rb:175-182 | the existing-cluster branch sends JobRequest's request |
| JobsCommand.RunJob | lib/mortar/command/jobs.rb:80-114 | no script argument gives the usage error; with `--project` the script is guessed from its path (a failed guess stops the run); otherwise the project's validated script is used and its section of the defaults is loaded before the run |
| JobsCommand.LaunchSteps | lib/mortar/command/jobs.rb:116-149 | clusters are fetched first exactly when no cluster is named; a successful run synced exactly when `--project` was not given; a sync comes last |
| JobsCommand.LaunchStepsDefaulted | lib/mortar/command/jobs.rb:116-149 | the order of the steps when a default cluster is found |
| JobsCommand.LaunchStepsNoCluster | lib/mortar/command/jobs.rb:116-121 | the order of the steps when the cluster choice fails |
| JobsCommand.StepsShape | lib/mortar/command/jobs.rb:116-149 | a fetch comes first and a sync last |
| JobsCommand.TypeFlagWithFreeClusterFails | lib/mortar/command/jobs.rb:116-139 | `--singlejobcluster` without a size or id while a cluster is free is rejected as set on an existing cluster, because the default is chosen before the conflicts are looked for |
| JobsCommand.ScriptPathAsWritten | lib/mortar/command/jobs.rb:169 | reading the script's path fails exactly when no script was looked up |
| JobsCommand.JobRequestAsWritten | lib/mortar/command/jobs.rb:153-181 | the request as written reads the script object's path after the Pig version: with a script it is the model's request for that script's path; without one it always fails, and with the `nil.rel_path` error once the cluster and version checks pass |
| JobsCommand.AsWrittenWithScript | lib/mortar/command/jobs.rb:114-181 | when a script was looked up, the run as written and the model's run take the same steps and end the same way |
| JobsCommand.AsWrittenFailsWithoutScript | lib/mortar/command/jobs.rb:114-181 | without a script object, the run as written takes the model's steps and fails with the `nil.rel_path` error wherever the model's run is requested, on a new or an existing cluster |
| JobsCommand.ProjectRunFailsAsWritten | lib/mortar/command/jobs.rb:87-169 | as written, the `--project` run with a size that the model requests fails with the `nil.rel_path` error |
| JobsCommand.ProjectRunSubmits | lib/mortar/command/jobs.rb:87-183 | with the path sent only for a looked-up script, a `--project` run with a size and valid options is requested from the given branch (or master) with no script path, and without fetching or syncing |
| JobsCommand.ProjectRunOnClusterSubmits | lib/mortar/command/jobs.rb:87-181 | with the path sent only for a looked-up script, a `--project` run on a named cluster with valid options is requested on that cluster from the given branch (or master) with no script path, and without fetching or syncing |
| JobsCommand.ProjectRunOnClusterFailsAsWritten | lib/mortar/command/jobs.rb:175-181 | as written, that run on a named cluster fails with the `nil.rel_path` error |
| JobsCommand.ProgressBar | lib/mortar/command/jobs.rb:279 | one `=` per five percent after a leading `=`, then `>` |
| JobsCommand.ProgressBarFits | lib/mortar/command/jobs.rb:279-286 | at 100 percent the bar is exactly the 22 columns it is printed in, never more below that, and never shrinks as progress grows |
| CommandBase.FileEntry | lib/mortar/command/base.rb:111-118 | a read line is split at its first `=`: the name holds no `=`, and a value exists exactly when the chomped line has one |
| CommandBase.FileEntries | lib/mortar/command/base.rb:110-120 | at most one entry per line |
| CommandBase.FileEntriesCount | lib/mortar/command/base.rb:110-120 | there is one entry per line exactly when no line is empty or a comment |
| CommandBase.FileEntriesComplete | lib/mortar/command/base.rb:110-120 | every line that is neither empty nor a comment gives its entry |
| CommandBase.FileEntriesSound | lib/mortar/command/base.rb:110-120 | every entry is that of a line that is neither empty nor a comment |
| CommandBase.OptionEntry | lib/mortar/command/base.rb:126-129 | an empty option gives no name and no value; otherwise the name is up to the first `=`, with a value exactly when there is an `=`, and the whole option is the name when there is none |
| CommandBase.EntriesSplitAtFirst | lib/mortar/command/base.rb:114-127 | both splits are at the first `=`: the name, `=` and the value give the line back |
| CommandBase.OptionEntries | lib/mortar/command/base.rb:125-129 | one entry per `-p` option, in order |
| CommandBase.ToParams | lib/mortar/command/base.rb:131-134 | one parameter per merged entry, in order, with its name and value |
| CommandBase.PigParameters | lib/mortar/command/base.rb:107-137 | fails with `Parameter file is malformed` exactly when the file has a read line without `=`; otherwise fails with the NoMethodError text exactly when the `parameter` option has no `split`; otherwise the file's entries merged with the option's texts |
| CommandBase.InputParameters | lib/mortar/command/base.rb:125 | `Array()` of a set option: an unset or false option gives no text, a list itself, one text a one-element list; `true` and numbers fail with the `split` NoMethodError |
| CommandBase.ReadParamFile | lib/mortar/command/base.rb:109-121 | the loop over the file gives its entries as a hash, or the malformed error exactly when some read line has no `=` |
| CommandBase.FileEntriesSnoc | lib/mortar/command/base.rb:110-120 | reading one more line adds its entry unless it is skipped, and makes the file malformed exactly when that line is |
| CommandBase.AnyMalformedSnoc | lib/mortar/command/base.rb:115-117 | a list with one more line is malformed exactly when the list or the line is |
| CommandBase.ReadParamOptions | lib/mortar/command/base.rb:124-129 | the loop over the `-p` options assigns each entry in turn |
| CommandBase.ParamList | lib/mortar/command/base.rb:131-134 | the loop lists the merged entries as parameters, in order |
| CommandBase.ParametersMeaning | lib/mortar/command/base.rb:107-137 | one parameter per name; the file's names come first in the order they appear; a name has its last `-p` value when an option gives it, else its last file value |
| CommandBase.Convert | lib/mortar/command/base.rb:504-508 | only `true` and `false` become flags, with their meaning; every other value stays text |
| CommandBase.Admitted | lib/mortar/command/base.rb:502-503 | no key given on the command line is taken from a section |
| CommandBase.AdmittedLookup | lib/mortar/command/base.rb:499-514 | a key is taken from a section exactly when the section has it and the command line does not, with the section's last value for it, converted |
| CommandBase.DefaultsLookup | lib/mortar/command/base.rb:499-514 | after a section is loaded, a command-line key keeps its value, a key the section gives takes the section's value, every other key keeps what it had |
| CommandBase.ScriptOverridesDefaults | lib/mortar/command/base.rb:45-425 | with DEFAULTS and then a script's section loaded, the command line wins over both and the script's section over DEFAULTS |
| CommandBase.Command.constructor | lib/mortar/command/base.rb:38-46 | the command line is kept, and the DEFAULTS section is loaded into the options |
| CommandBase.Command.LoadDefaults | lib/mortar/command/base.rb:491-497 | the section is read from `project.properties` when it exists, else from `.mortar-defaults`, else nothing changes |
| CommandBase.Command.LoadDefaultsFromFile | lib/mortar/command/base.rb:499-514 | every entry of the section whose key the command line did not give is set, converted; a missing section changes nothing |
| CommandBase.RemoteOfProject | lib/mortar/command/base.rb:534 | found exactly when some remote names the project, and the remote found is one of them |
| CommandBase.ExtractProjectInDir | lib/mortar/command/base.rb:516-551 | nothing without `.git` or without Mortar remotes; the multiple-projects error exactly when no remote is named by option or git config, no project asked for, the remotes name several projects and none is `mortar`; otherwise a project |
| CommandBase.ExtractedRemoteNamesProject | lib/mortar/command/base.rb:516-551 | with distinct remote names, the project answered is the one the answered remote names |
| CommandBase.ExtractByName | lib/mortar/command/base.rb:532-538 | a project asked for by name is answered with the first remote naming it, and with no remote exactly when none does |
| CommandBase.ExtractProjectInDirAsWritten | lib/mortar/command/base.rb:516-551 | the code as written departs from the corrected one only for a project name that some remote names |
| CommandBase.AsWrittenAbbreviatesRemote | lib/mortar/command/base.rb:534-535 | as written, the project `myproject` on the remote `mortar` is answered with the remote `m`, which does not exist; the corrected function answers `mortar` |
| CommandBase.MissingDirectories | lib/mortar/command/base.rb:154-156 | the required directories that are missing, in order, and no others |
| CommandBase.ValidateProjectStructure | lib/mortar/command/base.rb:153-161 | an error exactly when one of pigscripts, macros, udfs is missing, naming the missing ones as a Ruby array |
| CommandBase.FirstMissingDirectory | lib/mortar/command/base.rb:484-486 | the first required directory that is missing, none exactly when all are there |
| CommandBase.ExtractProjectInDirNoGit | lib/mortar/command/base.rb:482-489 | a project exactly when every required directory is there, named after the folder and without a remote |
| CommandBase.StructureChecksAgree | lib/mortar/command/base.rb:153-161 | the structure check passes exactly when a folder without git is taken for a project |
| CommandBase.ErrorMessageContext | lib/mortar/command/base.rb:139-144 | the `-p` hint exactly for a message starting with `Undefined parameter`, nothing otherwise |
| CommandBase.JdbcConn | lib/mortar/command/base.rb:593-595 | the string starts with `jdbc:` and ends with the zero-date option |
| CommandBase.JdbcConnInjective | lib/mortar/command/base.rb:593-595 | a type without `:` and a host without `/` are read back from the string: different databases give different strings |
| CommandBase.ExtractProjectIn | lib/mortar/command/base.rb:516-523 | nothing without `.git`; with git installed, the remotes `git remote -v` lists for the organisation decide |
| CommandBase.LocateProject | lib/mortar/command/base.rb:48-67 | a project found has the working folder as its root; without `.git` one is found exactly when the required directories are there, named after the folder and without a remote; a remote comes from the first look; the error is `No project found` or the first look's |
| CommandBase.ResolveProject | lib/mortar/command/base.rb:48-80 | the project is LocateProject's, with its errors; the fork check's folder and warning are used when it succeeds, and its failure is ignored |
| CommandBase.SecondLookFindsNothing | lib/mortar/command/base.rb:59-65 | a first look that found nothing makes the second look by name find nothing too |
| CommandBase.ValidateGitBasedProject | lib/mortar/command/base.rb:394-402 | succeeds with the remote exactly when the project has a folder and a remote; otherwise the checked-out-directory error, then the missing-remote error naming the project |
| CommandBase.SyncCodeWithCloud | lib/mortar/command/base.rb:579-591 | an embedded project pushes the user's `-base` branch and then the snapshot branch to `mortar`; any other project is validated (an error pushes nothing) and then pushes exactly one snapshot branch to its remote; the hash answered is the id of the commit now hosted as the snapshot branch at that remote's URL, and for an embedded project at the URL of some hosted repository |
| GitText.HasGit | lib/mortar/git.rb:33-45 | no git means no; output with fewer than three words raises (Ruby splits nil); a yes needs git to have run |
| GitText.HasGitReadsVersion | lib/mortar/git.rb:33-45 | for `git version X.Y.Z`, the answer is whether X.Y.Z is at least the version asked for, in version order |
| GitText.VersionWord | lib/mortar/git.rb:38 | the third word of the version line is the dotted release |
| GitText.SplitDotted | lib/mortar/git.rb:39 | the dotted release splits into its three numbers |
| GitText.HasGitMonotone | lib/mortar/git.rb:33-51 | git that passes a stricter version check passes a weaker one, so git new enough for `--set-upstream-to` passes ensure_has_git |
| GitText.GitCommand | lib/mortar/git.rb:71-84 | succeeds exactly when git is installed, `.git` is there unless not checked, and the command exited with success unless not checked; the errors are, in that order, the install message, `No .git directory found` and the execution error with the trimmed output; a success answers the trimmed output |
| GitText.HexRun | lib/mortar/git.rb:520 | the length of the longest leading run of hex digits |
| GitText.FindChar | lib/mortar/git.rb:520 | the first index of the character, none exactly when it is absent |
| GitText.ProjectOfPath | lib/mortar/git.rb:520-522 | a project found is a `[\w\d-]+` name |
| GitText.ProjectOfUrl | lib/mortar/git.rb:520-522 | a project is found only for a `git@...` URL ending in `.git`, and it is a `[\w\d-]+` name |
| GitText.ProjectAfterUser | lib/mortar/git.rb:520-522 | a project is found only when the text ends in `.git` |
| GitText.UrlParts | lib/mortar/git.rb:520-522 | for `git@host:org/path.git` with a host-name host, the project is the one the path names |
| GitText.PlainUrlProject | lib/mortar/git.rb:521 | `git@host:org/name.git` names the project `name`, unless the name itself looks like the hashed form |
| GitText.HashedUrlProject | lib/mortar/git.rb:520 | `git@host:org/<24k hex>_name.git` names the project `name` |
| GitText.HashedPathProject | lib/mortar/git.rb:520 | `<24k hex>_name` gives `name` |
| GitText.HexRunStops | lib/mortar/git.rb:520 | the hex run of hex digits followed by a non-hex character is exactly those digits |
| GitText.RemoteEntry | lib/mortar/git.rb:518-523 | a line gives its remote's name and a `[\w\d-]+` project name, or nothing |
| GitText.RemotesFromLookup | lib/mortar/git.rb:515-527 | the loop keeps remote names distinct, and a remote maps to the project of the last line that names it |
| GitText.RemotesLookup | lib/mortar/git.rb:515-527 | each remote appears once, with the project of the last `git remote -v` line naming it |
| GitText.NonBlankPrefix | lib/mortar/git.rb:458 | the leading run of non-blank characters, which stops at a blank or at the end |
| GitText.CurrentIn | lib/mortar/git.rb:453-461 | the branch found holds no blank |
| GitText.CurrentBranch | lib/mortar/git.rb:452-463 | a branch found holds no blank; otherwise the error shows the listing |
| GitText.BranchLines | lib/mortar/git.rb:455-457 | one line per branch, `* ` before the current one and two blanks before the others |
| GitText.TrimmedLines | lib/mortar/git.rb:452-458 | one line per branch once the listing is trimmed |
| GitText.CurrentBranchOfListing | lib/mortar/git.rb:452-463 | current_branch reads back the branch `git branch` marks as current |
| GitText.LineFacts | lib/mortar/git.rb:453-458 | no line of the trimmed listing holds a line break, no line before the current one is marked, and the current one reads `* <name>` |
| GitText.FirstIndex | lib/mortar/git.rb:453 | the first position of a branch in the list |
| GitText.CurrentInAt | lib/mortar/git.rb:453-461 | the first marked line decides the current branch |
| GitText.StripListing | lib/mortar/git.rb:441-443 | trimming `git branch`'s output removes only the first line's indentation |
| GitText.StashNothingAnywhere | lib/mortar/git.rb:557-559 | the phrase `No local changes to save` anywhere in the output counts as nothing stashed |
| GitText.StatusCode | lib/mortar/git.rb:583-585 | at most the first two characters of the line |
| GitText.StatusLines | lib/mortar/git.rb:565-567 | one porcelain line per entry, the code, a blank and the path |
| GitText.ConflictsOfEntries | lib/mortar/git.rb:581-589 | a status listing has conflicts exactly when one of its entries has an unmerged code (DD, AU, UD, UA, DU, AA, UU) |
| Manifest.Name | lib/mortar/git.rb:190-198 | `project.manifest` unless only `.mortar-project-manifest` exists (then that one), both ways |
| Manifest.NameStable | lib/mortar/git.rb:190-198 | the name depends only on which of the two files exist |
| Manifest.AddEntry | lib/mortar/git.rb:163-174 | fails exactly when the manifest is not a readable file; a manifest whose stripped contents already contain the entry is unchanged; otherwise it becomes the stripped contents, a line break, the entry and a line break; no other path changes |
| Manifest.AddEntryHolds | lib/mortar/git.rb:163-174 | afterwards the stripped manifest contains the entry |
| Manifest.AddEntryIdempotent | lib/mortar/git.rb:163-174 | adding the same entry twice is adding it once |
| Manifest.AddNewline | lib/mortar/git.rb:176-188 | fails exactly when the manifest is not a readable file; afterwards it ends with a line break, gaining one only when it lacked one, and no other path changes |
| Manifest.AddNewlineIdempotent | lib/mortar/git.rb:176-188 | a second call changes nothing |
| Manifest.EnsureLuigi | lib/mortar/git.rb:217-222 | without a `luigiscripts` directory nothing changes; with one the entry is added to the manifest; nothing but the manifest changes |
| Manifest.DefaultEntries | lib/mortar/git.rb:228-240 | macros, pigscripts, udfs first, then `lib` exactly when that directory exists and `luigiscripts` exactly when that one does |
| Manifest.Create | lib/mortar/git.rb:227-241 | the manifest is written with one line per default entry |
| Manifest.CreateReadsBack | lib/mortar/git.rb:227-241 | a new manifest reads back as exactly its default entries |
| Manifest.EnsureValidSpec | lib/mortar/git.rb:203-210 | fails exactly when the manifest name is taken by a directory; otherwise the manifest ends with a line break, names `luigiscripts` when that directory exists, keeps its name, and nothing else changes |
| Manifest.EnsureValidExisting | lib/mortar/git.rb:204-206 | the same for an existing manifest, which adds no path |
| Manifest.EnsureValidOnFile | lib/mortar/git.rb:204-206 | an existing manifest file is made valid, and only it changes |
| Manifest.OnlyAtChanged | lib/mortar/git.rb:205-206 | two edits that each change only the manifest together change only the manifest |
| Manifest.EnsureValidOnDir | lib/mortar/git.rb:204-206 | a manifest name taken by a directory fails |
| Manifest.EnsureValidFile | lib/mortar/git.rb:205-206 | the Luigi entry, then the trailing newline, leave a valid manifest |
| Manifest.NewlineKeepsValid | lib/mortar/git.rb:206 | the final newline keeps the Luigi entry in place |
| Manifest.EnsureValidCreated | lib/mortar/git.rb:207-208 | a missing manifest is created valid, and every other path keeps its content |
| Manifest.StripTrimmedContains | lib/mortar/git.rb:184-185 | a line break appended to a file does not hide what its stripped contents held |
| Manifest.EnsureValidIdempotent | lib/mortar/git.rb:203-210 | making a valid manifest valid again changes nothing |
| Manifest.Kept | lib/mortar/git.rb:149-152 | only lines that are neither blank nor `#` comments once trimmed, and only lines of the file |
| Manifest.KeptAppend | lib/mortar/git.rb:149-152 | filtering keeps order across a concatenation |
| Manifest.KeptComplete | lib/mortar/git.rb:149-152 | every line naming a path is kept |
| Manifest.FirstMissing | lib/mortar/git.rb:154-158 | the first listed path that does not exist, none exactly when all exist |
| Manifest.CheckListed | lib/mortar/git.rb:154-158 | succeeds exactly when every listed path exists, otherwise the error names a missing one |
| Manifest.ListedSpec | lib/mortar/git.rb:143-152 | appending `.git` before filtering is the same as appending it after |
| Manifest.PathlistSpec | lib/mortar/git.rb:140-161 | the list is the manifest's kept lines in order, then `.git` when asked for; it succeeds exactly when each names an existing path, and otherwise the error names a missing path before which every path exists |
| Manifest.PathlistStable | lib/mortar/git.rb:140-161 | listing again after the manifest was made valid gives the same result |
| GitClient.FibTrace | lib/mortar/git.rb:291-297 | the sleeps of n retries number exactly n |
| GitClient.TenSleeps | lib/mortar/git.rb:291-302 | ten failed retries sleep 1, 1, 2, 3, 5, 8, 13, 21, 34 and 55 seconds |
| GitClient.Budget | lib/mortar/git.rb:299-301 | after n earlier attempts a push fails at least once more, and fails until the count reaches ten and then stops (only one more once it is past ten) |
| GitClient.FirstUp | lib/mortar/git.rb:481-493 | the attempt found is within the budget and the first whose connection holds; when none is found, no attempt within the budget has one |
| GitClient.FirstUpAt | lib/mortar/git.rb:481-493 | the first attempt whose connection holds, when it lies within the budget, is the one found |
| GitClient.FirstUpNext | lib/mortar/git.rb:489-490 | one more attempt whose connection fails leaves no success among the attempts made |
| GitClient.FirstUpFound | lib/mortar/git.rb:484-490 | after k failures, an attempt k whose connection holds and that is within the budget is the one found |
| GitClient.GiveUp | lib/mortar/git.rb:489-492 | a push whose whole budget fails gives up, having failed and used exactly the budget |
| GitClient.GetThrough | lib/mortar/git.rb:484-490 | a push gets through at its first attempt whose connection holds, having failed k times and used k + 1 attempts |
| GitClient.DropStep | lib/mortar/git.rb:484-490 | taking one more attempt from the connection oracle after k equals taking k + 1, and that attempt succeeds exactly when the k-th connection holds |
| GitClient.PushedLookup | lib/mortar/git.rb:473-475 | after `git push remote branch` the hosted branch is the pushed tip, and every other branch and every other hosted repository is as it was |
| GitClient.PushPairServers | lib/mortar/git.rb:421-423 | pushing the base branch and then the snapshot branch to `mortar` leaves both hosted branches at the local tips |
| GitClient.Git.constructor | lib/mortar/git.rb:291-300 | a new client starts with no attempts, no sleeps and no pushes, with the sleep counters at 0 and 1 |
| GitClient.Git.RetrySnapshotPush | lib/mortar/git.rb:291-302 | sleeps the current time, steps the Fibonacci pair, counts one more attempt and answers whether fewer than ten were made |
| GitClient.Git.Attempt | lib/mortar/git.rb:484-493 | the attempts and the connections used are those of the first attempt that gets through within the budget, and it succeeds exactly when one does; a failure leaves at least ten attempts counted |
| GitClient.Git.PushWithRetry | lib/mortar/git.rb:481-505 | on success the branch is hosted at the pushed tip, the push is logged and the answer is the tip's hash; on failure nothing is pushed and the message reports the attempt count |
| GitClient.Git.CreateAndPushSnapshotBranch | lib/mortar/git.rb:276-289 | a failed snapshot is reported with nothing pushed and the retry counters untouched; otherwise the snapshot branch is pushed with retries: it succeeds exactly when a connection gets through within the attempts left, the attempts grow by the failed ones and the connections used are consumed; on success the branch is hosted at the snapshot's commit and that commit's hash is answered, on failure nothing is pushed and the message reports the attempt count |
| GitClient.FailingPushes | lib/mortar/git.rb:291-302 | a client whose pushes never get through gives up after ten attempts, and a second push on the same client reports eleven; the sleeps are 1, 1, 2, ..., 89 |
| GitClient.ElevenSleeps | lib/mortar/git.rb:291-297 | eleven retries sleep the first eleven Fibonacci numbers |
| GitClient.GiveUpMessages | lib/mortar/git.rb:492 | the give-up message for ten and for eleven attempts, written out |
| GitClient.RepoOf | lib/mortar/git.rb:71-84 | a command runs only when git is installed and `.git` holds a repository; without git or without `.git` it fails with their messages |
| GitClient.Run | lib/mortar/git.rb:71-84 | a command that succeeds passes its result through; one that fails raises with its arguments and git's output |
| GitClient.CopyFilesToDir | lib/mortar/git.rb:119-134 | copying the paths one at a time, in order, is the whole copy, and the first missing path stops it |
| GitClient.ListsGitAppended | lib/mortar/git.rb:140-152 | a path list with `.git` appended carries the repository |
| GitClient.CreateSnapshotBranch | lib/mortar/git.rb:247-274 | without git or without a commit it fails with the no-commits message; otherwise the result is a snapshot: the listed paths and `.git` copied, on a new clean snapshot branch whose commit is the project's own when the tree is unchanged and a new snapshot commit on it otherwise |
| GitClient.SnapshotFacts | lib/mortar/git.rb:259-270 | after the copy, the branch, `git add .`, `git add -u .` and the commit, the copy is clean on the new branch with the project's remotes, at the right commit |
| GitClient.SnapshotContents | lib/mortar/git.rb:119-134 | the snapshot holds exactly the listed paths, everything under them and their parent directories, with the project's content there |
| GitClient.MortarRefIsBranchName | lib/mortar/git.rb:374 | `mortar/<branch>` is a branch name whenever the branch's name is one |
| GitClient.SelectBranch | lib/mortar/git.rb:374-396 | on success the mirror is clean on the branch with its remotes, tracking branches and stashes kept; it fails when neither the branch nor master exists, or when the listing mentions the branch but no branch has that name |
| GitClient.SelectBranchTip | lib/mortar/git.rb:374-396 | the branch ends at the Mortar remote's branch when there is one, else where the local branch was, else at master |
| GitClient.SelectBranchSucceeds | lib/mortar/git.rb:374-396 | the switch succeeds when the Mortar remote has the branch and either the branch exists or no listed branch contains its name and master exists |
| GitClient.PrepareMirror | lib/mortar/git.rb:362-396 | on success the mirror is clean on the branch with its remotes; the stash list grows by the old files exactly when the mirror had local changes |
| GitClient.CommitMirror | lib/mortar/git.rb:405-411 | the result is clean on the same branch with the same remotes, moved by one snapshot commit exactly when the files differ from the branch's tree; it always succeeds when the index is the branch's tree |
| GitClient.SyncWithMirror | lib/mortar/git.rb:362-412 | succeeds only when the mirror could be prepared and the project's path list read |
| GitClient.SyncShape | lib/mortar/git.rb:362-412 | the result is the project with its manifest made valid and the prepared mirror wiped, refilled and committed, clean |
| GitClient.FillMirror | lib/mortar/git.rb:398-411 | the refilled mirror is the copy into the wiped mirror, clean, on the same branch with the same remotes, moved by one snapshot commit exactly when the copy differs from the branch's tree |
| GitClient.SyncTip | lib/mortar/git.rb:362-412 | for a project that is not a repository the mirror ends on the branch with its remotes, moved by one snapshot commit exactly when the copied tree differs from the selected branch's |
| GitClient.FillContents | lib/mortar/git.rb:398-403 | the mirror's visible entries are exactly the listed paths and their parents, holding the project's content; its hidden top-level entries that are not listed stay as they were |
| GitClient.SyncContents | lib/mortar/git.rb:362-412 | the same three facts for the whole sync, against the project with its manifest made valid |
| GitClient.Git.EnsureMirror | lib/mortar/git.rb:323-360 | a mirror holding a repository is kept; otherwise a missing remote file or a missing git is an error, and success means a fresh clone of the recorded URL set up as a mirror, with master pushed once for a first mirror |
| GitClient.Git.RebuildMirror | lib/mortar/git.rb:339-358 | the rebuilt mirror is a mirror of the clone, and when the clone had no `.gitkeep` the hosted master is the mirror's new commit |
| GitClient.Git.PushPair | lib/mortar/git.rb:421-423 | both branches are pushed to `mortar`, in that order: the hosted branches are the local tips, the push log grows by the two pushes and the mirror's branches, remotes, head and index are kept |
| GitClient.Git.MirrorWithCloud | lib/mortar/git.rb:414-427 | without git it fails; a snapshot branch that already exists fails; on success the base and snapshot branches are hosted at the local tips, the answer is the snapshot's hash and the mirror is back on the base branch, clean |
| GitClient.Git.SyncEmbeddedProject | lib/mortar/git.rb:308-321 | the pushes are the setup pushes (for a new mirror) then the base and snapshot branches; the mirror ends clean on the branch, both hosted branches at its commit, whose hash is answered, and its visible files are exactly the project's listed paths |
| GitClient.BaseTip | lib/mortar/git.rb:638-640 | the latest hash exists exactly when `base/master` is tracked, and is its hash trimmed |
| GitClient.RecordedHash | lib/mortar/git.rb:621-628 | no `.mortar-fork` gives none; a file gives its trimmed content; a directory of that name is an error |
| GitClient.ContainsHash | lib/mortar/git.rb:642-644 | answers exactly when the branch has a commit, and then whether its log mentions the hash |
| GitClient.ForkUpdated | lib/mortar/git.rb:606-619 | without a `base` remote the answer is false and nothing changes; with one, `base` is fetched, and the call succeeds exactly when the fetch, the tip and `.mortar-fork` can be read and the tip is either recorded or checked against a history that has commits; the answer is true exactly when the tip is neither recorded nor in the history, and it is then written to `.mortar-fork` |
| GitClient.ForkRecordsUpstream | lib/mortar/git.rb:606-619 | the hash recorded is the upstream master the fetch brought |
| GitClient.ForkUpdatedOnce | lib/mortar/git.rb:606-628 | asked again with nothing new upstream, is_fork_repo_updated answers false |
| GitClient.MirrorRemote | lib/mortar/git.rb:339-341 | the manifest is made valid and the URL is the trimmed content of `.mortar-project-remote` |
| GitClient.CloneMirror | lib/mortar/git.rb:342-349 | the clone succeeds exactly when the URL is hosted, and is the fresh clone with `mortar` added unless the remotes already report one |
| GitClient.SetupCommit | lib/mortar/git.rb:351-358 | a clean mirror without `.gitkeep` gets an empty `.gitkeep`, committed on the same branch with the same remotes, and stays clean |
| GitClient.SetupIsMirror | lib/mortar/git.rb:339-358 | either way the setup goes, the result is a mirror of the clone |
| World.PathOf | lib/mortar/git.rb:123 | a path as written becomes components with no empty or `.` component |
| World.Read | lib/mortar/git.rb:143 | reading succeeds exactly on a regular file and gives its content |
| World.StageEverything | lib/mortar/git.rb:264-265 | `git add .` then `git add -u .` make the index the work tree and change nothing else |
| World.CommitIndex | lib/mortar/git.rb:269 | `git commit` refuses exactly when the index is the current tree; otherwise the branch moves to a new commit of the index on top of the old one, and only the branches change |
| World.CheckoutNewBranch | lib/mortar/git.rb:261 | `git checkout -b` fails exactly when the branch exists; otherwise the new branch is current at the same commit and nothing else changes |
| World.CheckoutNewTracking | lib/mortar/git.rb:391 | `git checkout -b name ref` fails when the branch exists or the ref is not tracked; otherwise the new branch is current at the ref, its tree checked out |
| World.Checkout | lib/mortar/git.rb:377 | `git checkout name` fails exactly when the branch does not exist; otherwise it is current, its tree checked out |
| World.ResetHard | lib/mortar/git.rb:382 | `git reset --hard ref` fails exactly when the ref is not tracked; otherwise the current branch moves to it and the work tree is clean |
| World.Stash | lib/mortar/git.rb:553 | the stash leaves a clean work tree, saves the old files exactly when there were changes, and fails only for changes on a branch without commits |
| World.TrackAllLookup | lib/mortar/git.rb:635 | after a fetch each `<remote>/<b>` is the server's tip of b when it has one, and what it was before otherwise |
| World.Fetch | lib/mortar/git.rb:635 | `git fetch remote` fails exactly when the remote is not configured or not hosted, and changes only the tracking branches |
| World.FetchAll | lib/mortar/git.rb:372 | `git fetch --all` changes only the tracking branches |
| World.RemoteAdd | lib/mortar/git.rb:530 | `git remote add` fails exactly when the remote exists, and otherwise appends it |
| World.Clone | lib/mortar/git.rb:599 | the clone fails exactly when the URL is not hosted; otherwise it is clean on master at the server's master, with `origin` as its only remote |
| World.RemoteLines | lib/mortar/git.rb:449 | one `  remotes/<ref>` line per tracking branch, in order |
| World.BranchesShowBranch | lib/mortar/git.rb:441-443 | the `git branch` listing mentions every local branch |
| World.AllBranchesShowTracking | lib/mortar/git.rb:448-450 | the `git branch --all` listing mentions every tracking branch as `remotes/<ref>` |
| World.History | lib/mortar/git.rb:643 | the history of a commit starts with its own hash |
| World.ProperPrefixes | lib/mortar/git.rb:128 | the directories made on the way to a path are exactly its proper non-empty prefixes |
| World.CopyOne | lib/mortar/git.rb:122-132 | copying a path fails exactly when it does not exist |
| World.CopyAll | lib/mortar/git.rb:119-134 | copying a list fails exactly when some path in it does not exist |
| World.CopyAllPaths | lib/mortar/git.rb:119-134 | the copy holds exactly what the destination held, the listed paths with everything under them, and their parent directories |
| World.CopyAllListedValues | lib/mortar/git.rb:119-134 | what is placed under a listed path is the source's content there |
| World.CopyAllOtherValues | lib/mortar/git.rb:119-134 | what lies under no listed path keeps the destination's content |
| World.CopyAllGit | lib/mortar/git.rb:119-134 | the copy carries the source's repository exactly when `.git` is listed |
| World.WipeVisible | lib/mortar/git.rb:401 | removing the glob `*` keeps exactly the entries whose first component starts with a dot, unchanged |
| LocalFiles.Written | lib/mortar/local/installutil.rb:77-79 | writing adds the target, whose content is the new text (after the old content when appending), and keeps every other file |
| LocalFiles.FileTree.constructor | lib/mortar/local/installutil.rb:77-79 | the tree holds the files and directories given |
| LocalFiles.FileTree.Write | lib/mortar/local/installutil.rb:77-79 | the files become the written files and the directories are kept |
| LocalFiles.FileTree.RemoveFile | lib/mortar/s3.rb:100-104 | the file is removed and nothing else changes |
| LocalFiles.FileTree.RemoveTree | lib/mortar/local/installutil.rb:258 | the path and everything below it are removed, everything else is kept |
| LocalFiles.FileTree.MakeDir | lib/mortar/local/installutil.rb:260-261 | refused with the exists message exactly when something has the name; otherwise the directory is added; the files are kept |

## Left out

- Running processes, `Dir.chdir` and real file copies are not modelled as such: git and the file system are the values of `World`, and every command is a function on them.
- The sleep itself is not taken. Each retry's sleep time is appended to `GitClient.Git.sleeps`.
- `Mortar::UUID.create_random` is not modelled. UUIDs and commit hashes are parameters, so their uniqueness is not proved.
- `push_all` and the `push_all_branches` flag of `push_with_retry` are not modelled: no code in the modelled files passes the flag.
- Pushes rejected as non-fast-forward are not modelled. A push fails only when its connection does not hold, and then it is retried.
- State reached before a git command fails is dropped: an `Err` result carries only the message.
- `Helpers.action`, `display`, `styled_hash`, the spinner and the polling loops of `jobs:status` are console output and are not modelled. The progress bar's text is modelled.
- JobsCommand.ProgressBar: takes the progress as a natural number. The `to_i` of a negative or fractional progress is not modelled.
- Common.ToI: reads only leading digits. Ruby's `to_i` also skips leading whitespace, reads a sign (`-3` is -3) and allows `_` between digits (`1_0` is 10); none of these is modelled.
- JobsCommand.ClusterSize: a true/false or list value answers a fixed error text, not Ruby's full `NoMethodError` message. Option values are natural numbers, so a negative size is not represented.
- The `'%0.2f'` job counts and `polling_interval.to_f` are floating point and are left out.
- `require_aws_keys`, `fetch_aws_keys` and `set_project_name` are not modelled. They make up the interactive login and API lookup.
- The local `run`, `illustrate`, `validate`, `repl`, `run_luigi` and `sqoop_export_*` entry points are not modelled. They hand over to the Pig, Python, Jython and Sqoop installers.
- What the installers do (downloads, tar extraction, pip) is not modelled. `LocalController` records only which installer runs, in order.
- `extract_tgz` and `download_file` are left out: they extract archives and write response bodies.
- `url_date` and `http_date_to_epoch` are left out. The archive's date is an input in seconds, or none when it is unknown.
- `run_templated_script`, `render_script_template` and `unset_hadoop_env_vars` are left out: they render ERB templates and start processes.
- InstallUtil.MakeCall: the `call_func` argument is the `CallFunc` datatype (HEAD, GET or some other name). The server's answers are a function from request number to response.
- `get_s3`, the bucket check and `do_download` are not modelled. The S3 listing is given as a sequence of objects.
- `S3Download.ParseUri` covers only the URI shapes an S3 path takes. The wider `URI.parse` grammar and its error texts are not modelled.
- `validate_script!`, `validate_pigscript!`, `validate_luigiscript!`, `validate_sparkscript!`, `spark_script_arguments` and `validate_arguments!` are not modelled. The script they find, or their error, is an input.
- The API calls (`post_pig_job_*`, `post_spark_job_*`, `get_clusters`, `get_config_vars`, `update_config_vars`) are modelled by their results alone: the request that would be sent, or the answer given as an input.
- `jobs:run` ends in `error "Unknown Script Type"` when validation finds a script that is neither a Pig script nor a control script. That branch is not modelled, because the script given as an input is always one of the two.
- `validate_embedded_project!`, `register_do`, `register_project`, `initialize_embedded_project` and `validate_github_username` are not modelled: they are the project-registration and GitHub flows.
- The help system and command registration (`extract_help`, `extract_options`, `method_added`) are not modelled.
- The `||=` memoisation of `project` and `git` on a command is not modelled. Each is computed when it is needed.
- The process-wide `ENV` is an explicit map, passed in and returned.
- GitClient.Git.SyncEmbeddedProject: requires that the project directory is not a git repository. The only caller, `sync_code_with_cloud`, calls it only for embedded projects.
- LocalController.EnsureLocalInstallDirsInGitignore: a `.gitignore` that is a directory is not modelled.
- GitClient.BaseTip: reads the tracking branch `base/master`. `git log -n 1 base` resolves `base` to the remote's HEAD branch, so a fork base whose default branch is not `master` is not modelled.
- World.StageEverything: `World.AddAll` stages every file of the work tree. `git add .` skips untracked files that `.gitignore` matches; ignore rules are not modelled. It also stages empty directories, which git leaves out (see World.AddAll).
- World.IsClean: compares the work tree with the index and the current tree node by node, `Dir` nodes included. Git does not track directories, so a work tree that differs only by a directory with no file below it (an empty `udfs/jython`, say) is clean for `git status --porcelain` and not clean in the model.
- World.AddAll: stages `Dir` nodes as well as files, so an empty directory enters the index, where `git add .` leaves it out.
- World.CommitIndex: commits when the index differs from the current tree, empty directories included. Git finds nothing to commit when the two differ only by empty directories.
- World.Stash: saves and puts away a work tree that differs from the current commit only by empty directories. `git stash save --include-untracked` saves nothing for it.
- GitClient.CreateSnapshotBranch: through World.AddAll and World.CommitIndex, empty directories of the project are staged and committed in the snapshot's tree, and a project that differs from its commit only by empty directories gets a snapshot commit, where git answers "nothing to commit". Git keeps no empty directory in a commit.
- GitClient.SnapshotFacts: states the snapshot's staging and commit with empty directories counted as changes, as World.AddAll and World.CommitIndex do.
- GitClient.PrepareMirror: a mirror that differs from its branch only by empty directories counts as having local changes, so the model stashes it; git does not.
- GitClient.CommitMirror: the mirror is moved by a snapshot commit when the copied files differ from the branch's tree only by empty directories, where `git commit` would fail with nothing to commit.
- GitClient.FillMirror: as GitClient.CommitMirror, empty directories of the copy count as a change of the tree.
- GitClient.SyncTip: as GitClient.PrepareMirror and GitClient.CommitMirror, empty directories count as changes when the mirror is stashed and when the copy is committed.
- GitClient.Git.SyncEmbeddedProject: as GitClient.SyncTip, a project that differs from the mirror's branch only by empty directories gets a new snapshot commit pushed in the model and none in git.
- GitText.ProjectOfUrl: matches the organization as literal text. `remotes` (git.rb:520) puts `git_organization` into the regular expression unescaped, so an organization holding a metacharacter such as `.` matches more URLs in Ruby.
- GitText.RemoteEntry: inherits the literal organization match of GitText.ProjectOfUrl.
- JobsCommand.Parameters: `paramFile` is the parameter file's lines, or none when no file is given. A `-f` file that cannot be opened (Ruby's `Errno::ENOENT`) is not represented.
- The file writes do not create missing parent directories. `LocalFiles.FileTree.Write` writes to the path it is given.

Behaviours kept as the code has them:
- `jobs:run` checks option conflicts after choosing the default cluster, and `spark` checks them before.
- A cluster-type flag given together with a free cluster therefore fails in `jobs:run` (`JobsCommand.TypeFlagWithFreeClusterFails`) and runs in `spark` (`SparkCommand.TypeFlagWithFreeClusterRuns`).
- `make_call` sends at most nine requests in all.
- `download_s3` with concatenation removes `output` even when nothing is found.
- The `.gitignore` entries are checked by substring.
- An existing `.gitignore` that does not end in a line break, an empty one included, gets one before the entries are appended.
- Whether a branch exists is asked of the `git branch` and `git branch --all` listings by substring, so a branch whose name contains another's makes the checkout fail.
- `Dir.glob("*")` skips dotfiles, so `.git`, `.gitkeep` and other hidden entries survive the mirror wipe.
- The retry counters are never reset. A second push on the same client starts from the count the first left.

## Findings

| source | as written | input that shows it | evidently intended | confidence | as-written member | corrected member |
|---|---|---|---|---|---|---|
| lib/mortar/command/base.rb:535 | a project found by name answers `project_remote.first[0]`, the first character of the remote's name | a direct call of `extract_project_in_dir("myproject")` with remotes `mortar` → `myproject`, no `--remote` and no git-config remote: the remote answered is `m`, which is not a remote. The defect is latent from `project`: its only call with a name (base.rb:61) follows a first look that found nothing, and then the look by name finds nothing too (CommandBase.SecondLookFindsNothing) | the remote's whole name, `mortar` | not executed | CommandBase.ExtractProjectInDirAsWritten | CommandBase.ExtractProjectInDir |
| lib/mortar/command/jobs.rb:169 | with `--project`, the new-cluster request reads `script.rel_path`, but `script` is only set when `--project` is absent | `jobs:run pigscripts/a.pig --project p --clustersize 3`: `script` is nil and `nil.rel_path` raises | no script path when the script was not looked up | not executed | JobsCommand.ProjectRunFailsAsWritten | JobsCommand.ProjectRunSubmits |
| lib/mortar/command/jobs.rb:179 | with `--project`, the existing-cluster request reads `script.rel_path` too | `jobs:run pigscripts/a.pig --project p --clusterid c1`: `nil.rel_path` raises | no script path when the script was not looked up | not executed | JobsCommand.ProjectRunOnClusterFailsAsWritten | JobsCommand.ProjectRunOnClusterSubmits |
| lib/mortar/command/spark.rb:111 | with `--project`, the new-cluster request reads `script.rel_path` of a script never looked up | `spark a.py --project p --clustersize 3`: `script` is nil and `nil.rel_path` raises | no script path when the script was not looked up | not executed | SparkCommand.ProjectSparkFailsAsWritten | SparkCommand.ProjectSparkSubmits |
| lib/mortar/command/spark.rb:118 | with `--project`, the existing-cluster request reads `script.rel_path` first | `spark a.py --project p --clusterid c1`: `nil.rel_path` raises | no script path when the script was not looked up | not executed | SparkCommand.ProjectSparkOnClusterFailsAsWritten | SparkCommand.ProjectSparkOnClusterSubmits |

`CommandBase.AsWrittenAbbreviatesRemote` exhibits the first row; `JobsCommand.AsWrittenFailsWithoutScript` and `SparkCommand.SparkAsWrittenFailsWithoutScript` show that, as written, every run without a looked-up script that the corrected model requests fails instead. `JobsCommand.RunJob` and `SparkCommand.SparkIndex` use the corrected path: no script path under `--project`. `CommandBase.ExtractedRemoteNamesProject` proves the corrected lookup returns a remote that names the project.
