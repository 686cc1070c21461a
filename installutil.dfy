/** Bookkeeping for the locally installed dependencies: where they live, the
    marker recording when each was installed, whether a newer archive is
    out, the redirect- and retry-limited HTTP calls that fetch one, and the
    reset of the local log directories. */
module InstallUtil {
  import opened Common
  import opened LocalFiles

  const LocalInstallDirectoryName := ".mortar-local"
  const LocalDirVariable := "MORTAR_LOCAL_DIR"
  const InstallDateFile := "install-date.txt"

  /** File.join of two parts: one `/` between them. */
  function FileJoin(a: string, b: string): (r: string)
    ensures !EndsWith(a, "/") && !StartsWith(b, "/") ==> r == a + "/" + b
  {
    if EndsWith(a, "/") && StartsWith(b, "/") then a + b[1..]
    else if EndsWith(a, "/") || StartsWith(b, "/") then a + b
    else a + "/" + b
  }

  /** local_install_directory: MORTAR_LOCAL_DIR when it is set, else
      `.mortar-local` in the project root. */
  function LocalInstallDirectory(env: Env, root: string): (r: string)
    ensures LocalDirVariable in env ==> r == env[LocalDirVariable]
    ensures LocalDirVariable !in env && !EndsWith(root, "/") ==> r == root + "/" + LocalInstallDirectoryName
  {
    assert LocalInstallDirectoryName[0] == '.';
    if LocalDirVariable in env then env[LocalDirVariable] else FileJoin(root, LocalInstallDirectoryName)
  }

  /** install_file_for: the marker `install-date.txt` in the subdirectory of
      the install directory. */
  function InstallFileFor(env: Env, root: string, sub: string): (r: string)
    ensures !EndsWith(LocalInstallDirectory(env, root), "/") && sub != "" && !StartsWith(sub, "/")
            && !EndsWith(sub, "/") ==>
      r == LocalInstallDirectory(env, root) + "/" + sub + "/" + InstallDateFile
  {
    var dir := FileJoin(LocalInstallDirectory(env, root), sub);
    assert InstallDateFile[0] == 'i';
    assert sub != "" && !StartsWith(sub, "/") ==> dir[|dir| - 1] == sub[|sub| - 1];
    FileJoin(dir, InstallDateFile)
  }

  /** The marker's text: the epoch and a line break. */
  function InstallRecord(now: nat): string {
    NatToString(now) + "\n"
  }

  /** note_install: the marker holds the time of the install. */
  method NoteInstall(fs: FileTree, env: Env, root: string, sub: string, now: nat)
    modifies fs
    ensures fs.files == old(fs.files)[InstallFileFor(env, root, sub) := InstallRecord(now)]
    ensures fs.dirs == old(fs.dirs)
  {
    fs.Write(InstallFileFor(env, root, sub), InstallRecord(now), false);
    assert "" + InstallRecord(now) == InstallRecord(now);
  }

  /** install_date: nil without a marker, else the marker's stripped text
      read as a number. */
  function InstallDate(files: map<string, string>, env: Env, root: string, sub: string): (r: Option<nat>)
    ensures r.Some? <==> InstallFileFor(env, root, sub) in files
  {
    var marker := InstallFileFor(env, root, sub);
    if marker in files then Some(ToI(Strip(files[marker]))) else None
  }

  /** The date noted is the date read back. */
  lemma InstallDateRoundTrip(files: map<string, string>, env: Env, root: string, sub: string, now: nat)
    ensures InstallDate(files[InstallFileFor(env, root, sub) := InstallRecord(now)], env, root, sub) == Some(now)
  {
    var t := NatToString(now);
    StripRecord(t);
    NatToStringToI(now, []);
    assert t + [] == t;
  }

  lemma StripRecord(t: string)
    requires |t| > 0 && forall i :: 0 <= i < |t| ==> IsDigit(t[i])
    ensures Strip(t + "\n") == t
  {
    var s := t + "\n";
    assert !IsSpace(s[0]) && s[0] == t[0];
    assert TrimLeft(s) == s;
    assert s[..|s| - 1] == t;
    assert TrimRight(t) == t by { assert !IsSpace(t[|t| - 1]); }
  }

  /** Noting one dependency leaves the date of every other one alone. */
  lemma NoteInstallOthers(files: map<string, string>, env: Env, root: string, sub: string, other: string, now: nat)
    requires !EndsWith(LocalInstallDirectory(env, root), "/")
    requires sub != "" && !StartsWith(sub, "/") && !EndsWith(sub, "/")
    requires other != "" && !StartsWith(other, "/") && !EndsWith(other, "/")
    requires sub != other
    ensures InstallDate(files[InstallFileFor(env, root, sub) := InstallRecord(now)], env, root, other)
         == InstallDate(files, env, root, other)
  {
    var d := LocalInstallDirectory(env, root) + "/";
    var m1 := InstallFileFor(env, root, sub);
    var m2 := InstallFileFor(env, root, other);
    var f := "/" + InstallDateFile;
    assert m1 == d + sub + f && m2 == d + other + f;
    DistinctMiddles(d, sub, other, f);
  }

  /** is_newer_version: true without an install, false when the archive's
      date is unknown, else whether it postdates the install.  The archive's
      date is asked for only when there is an install. */
  function IsNewerVersion(files: map<string, string>, env: Env, root: string, sub: string,
                          remoteDate: Option<nat>): (r: bool)
    ensures InstallDate(files, env, root, sub).None? ==> r
    ensures InstallDate(files, env, root, sub).Some? && remoteDate.None? ==> !r
    ensures InstallDate(files, env, root, sub).Some? && remoteDate.Some? ==>
      (r <==> InstallDate(files, env, root, sub).value < remoteDate.value)
  {
    var installed := InstallDate(files, env, root, sub);
    if installed.None? then true
    else if remoteDate.None? then false
    else installed.value < remoteDate.value
  }

  /** Once a dependency is installed, a newer version is one whose archive
      is dated after the install. */
  lemma NewerAfterInstall(files: map<string, string>, env: Env, root: string, sub: string, now: nat, remote: nat)
    ensures IsNewerVersion(files[InstallFileFor(env, root, sub) := InstallRecord(now)], env, root, sub, Some(remote))
        <==> now < remote
  {
    InstallDateRoundTrip(files, env, root, sub, now);
  }

  // ---------------------------------------------------------------------
  // make_call
  // ---------------------------------------------------------------------

  const MaxRedirects := 5
  const MaxErrors := 5
  const SleepSeconds := 2

  /** The status, Location header and body of a response. */
  datatype Response = Response(status: int, location: string, body: string)

  /** make_call's call type: `head`, `get`, or any other name, which it
      refuses. */
  datatype CallFunc = Head | Get | Other(name: string)

  /** One request sent: the url, the method and the query fields. */
  datatype Request = Request(url: string, callFunc: CallFunc, query: Assoc<string, string>)

  /** What a call returned or raised, the requests it sent and the seconds it
      slept. */
  datatype Calls = Calls(res: Result<Response>, requests: seq<Request>, slept: nat)

  /** Who is asking: MORTAR_TEST_NAME, and the user when logged in. */
  datatype Caller = Caller(testName: Option<string>, user: Option<string>)

  function TooManyRedirectsMessage(url: string): string { "Too many redirects.  Last url: " + url }
  function ServerErrorMessage(url: string): string { "Server Error at " + url }
  function UnknownCallMessage(name: string): string { "Unknown call type: " + name }

  /** The query, a Hash filled in turn: the test name when there is one,
      then, when a command is given, the command and, when logged in, the
      user. */
  function Query(caller: Caller, command: Option<string>): Assoc<string, string> {
    var q0: Assoc<string, string> := [];
    var q1 := if caller.testName.Some? then Put(q0, "test_name", caller.testName.value) else q0;
    var q2 := if command.Some? then Put(q1, "command", command.value) else q1;
    if command.Some? && caller.user.Some? then Put(q2, "user", caller.user.value) else q2
  }

  /** The test name is always sent when set; the command and the user only
      with a command. */
  lemma QueryFields(caller: Caller, command: Option<string>)
    ensures var q := Query(caller, command);
      && Lookup(q, "test_name") == caller.testName
      && Lookup(q, "command") == command
      && Lookup(q, "user") == (if command.Some? then caller.user else None)
  {
    var q0: Assoc<string, string> := [];
    var q1 := if caller.testName.Some? then Put(q0, "test_name", caller.testName.value) else q0;
    var q2 := if command.Some? then Put(q1, "command", command.value) else q1;
    if caller.testName.Some? {
      PutLookupSame(q0, "test_name", caller.testName.value);
      PutLookupOther(q0, "test_name", caller.testName.value, "command");
      PutLookupOther(q0, "test_name", caller.testName.value, "user");
    }
    if command.Some? {
      PutLookupSame(q1, "command", command.value);
      PutLookupOther(q1, "command", command.value, "test_name");
      PutLookupOther(q1, "command", command.value, "user");
      if caller.user.Some? {
        PutLookupSame(q2, "user", caller.user.value);
        PutLookupOther(q2, "user", caller.user.value, "test_name");
        PutLookupOther(q2, "user", caller.user.value, "command");
      }
    }
  }

  predicate IsRedirect(r: Response) { 300 <= r.status <= 303 }
  predicate IsServerError(r: Response) { 500 <= r.status <= 599 }

  /** A request sent, and a sleep taken, before the calls `rest`. */
  function Prepend(request: Request, rest: Calls, sleep: nat): (c: Calls)
    ensures c.res == rest.res && c.slept == sleep + rest.slept
    ensures |c.requests| == 1 + |rest.requests| && c.requests[0] == request
    ensures forall i :: 0 < i < |c.requests| ==> c.requests[i] == rest.requests[i - 1]
  {
    Calls(rest.res, [request] + rest.requests, sleep + rest.slept)
  }

  /** make_call.  `server(n)` is the response to the n-th request;
      `sent` requests were made before this call.  A redirect is followed
      to its Location, a server error is retried after a sleep, and either
      count reaching its limit raises; the command goes only with the first
      request. */
  function MakeCall(url: string, callFunc: CallFunc, redirects: nat, errors: nat, command: Option<string>,
                    caller: Caller, server: nat -> Response, sent: nat): Calls
    decreases MaxRedirects + MaxErrors - redirects - errors
  {
    if redirects >= MaxRedirects then Calls(Err(TooManyRedirectsMessage(url)), [], 0)
    else if errors >= MaxErrors then Calls(Err(ServerErrorMessage(url)), [], 0)
    else if callFunc.Other? then Calls(Err(UnknownCallMessage(callFunc.name)), [], 0)
    else
      var request := Request(url, callFunc, Query(caller, command));
      var response := server(sent);
      if IsRedirect(response) then
        var rest := MakeCall(response.location, callFunc, redirects + 1, errors, None, caller, server, sent + 1);
        Prepend(request, rest, 0)
      else if IsServerError(response) then
        var rest := MakeCall(url, callFunc, redirects, errors + 1, None, caller, server, sent + 1);
        Prepend(request, rest, SleepSeconds)
      else Calls(Ok(response), [request], 0)
  }

  /** Each call that starts sends at least one request and at most one per
      redirect and retry left, less one: the last answer ends it. */
  lemma {:induction false} MakeCallBounded(url: string, callFunc: CallFunc, redirects: nat, errors: nat,
                                           command: Option<string>, caller: Caller, server: nat -> Response, sent: nat)
    requires !callFunc.Other?
    requires redirects < MaxRedirects && errors < MaxErrors
    ensures var c := MakeCall(url, callFunc, redirects, errors, command, caller, server, sent);
      1 <= |c.requests| <= (MaxRedirects - redirects) + (MaxErrors - errors) - 1
    decreases MaxRedirects + MaxErrors - redirects - errors
  {
    var response := server(sent);
    if IsRedirect(response) && redirects + 1 < MaxRedirects {
      MakeCallBounded(response.location, callFunc, redirects + 1, errors, None, caller, server, sent + 1);
    } else if !IsRedirect(response) && IsServerError(response) && errors + 1 < MaxErrors {
      MakeCallBounded(url, callFunc, redirects, errors + 1, None, caller, server, sent + 1);
    }
  }

  /** The command goes with the first request only, every request uses the
      same method, and at most one sleep follows each request. */
  lemma {:induction false} MakeCallRequests(url: string, callFunc: CallFunc, redirects: nat, errors: nat,
                                            command: Option<string>, caller: Caller, server: nat -> Response, sent: nat)
    ensures var c := MakeCall(url, callFunc, redirects, errors, command, caller, server, sent);
      && (|c.requests| > 0 ==> c.requests[0] == Request(url, callFunc, Query(caller, command)))
      && (forall i :: 0 < i < |c.requests| ==> c.requests[i].query == Query(caller, None))
      && (forall i :: 0 <= i < |c.requests| ==> c.requests[i].callFunc == callFunc)
      && c.slept <= SleepSeconds * |c.requests|
    decreases MaxRedirects + MaxErrors - redirects - errors
  {
    if redirects < MaxRedirects && errors < MaxErrors && !callFunc.Other? {
      var c := MakeCall(url, callFunc, redirects, errors, command, caller, server, sent);
      var request := Request(url, callFunc, Query(caller, command));
      var response := server(sent);
      if IsRedirect(response) || IsServerError(response) {
        var next := if IsRedirect(response) then response.location else url;
        var redirects': nat := if IsRedirect(response) then redirects + 1 else redirects;
        var errors': nat := if IsRedirect(response) then errors else errors + 1;
        var rest := MakeCall(next, callFunc, redirects', errors', None, caller, server, sent + 1);
        MakeCallRequests(next, callFunc, redirects', errors', None, caller, server, sent + 1);
        assert c == Prepend(request, rest, if IsRedirect(response) then 0 else SleepSeconds);
        forall i | 0 < i < |c.requests|
          ensures c.requests[i].query == Query(caller, None) && c.requests[i].callFunc == callFunc
        {
          assert c.requests[i] == rest.requests[i - 1];
        }
      } else {
        assert c == Calls(Ok(response), [request], 0);
      }
    }
  }

  /** A call that returns returns the answer to its last request, which is
      neither a redirect nor a server error. */
  lemma {:induction false} MakeCallAnswer(url: string, callFunc: CallFunc, redirects: nat, errors: nat,
                                          command: Option<string>, caller: Caller, server: nat -> Response, sent: nat)
    ensures var c := MakeCall(url, callFunc, redirects, errors, command, caller, server, sent);
      c.res.Ok? ==> |c.requests| > 0 && c.res.value == server(sent + |c.requests| - 1)
                    && !IsRedirect(c.res.value) && !IsServerError(c.res.value)
    decreases MaxRedirects + MaxErrors - redirects - errors
  {
    if redirects < MaxRedirects && errors < MaxErrors && !callFunc.Other? {
      var c := MakeCall(url, callFunc, redirects, errors, command, caller, server, sent);
      var request := Request(url, callFunc, Query(caller, command));
      var response := server(sent);
      if IsRedirect(response) || IsServerError(response) {
        var next := if IsRedirect(response) then response.location else url;
        var redirects': nat := if IsRedirect(response) then redirects + 1 else redirects;
        var errors': nat := if IsRedirect(response) then errors else errors + 1;
        var rest := MakeCall(next, callFunc, redirects', errors', None, caller, server, sent + 1);
        MakeCallAnswer(next, callFunc, redirects', errors', None, caller, server, sent + 1);
        assert c == Prepend(request, rest, if IsRedirect(response) then 0 else SleepSeconds);
        assert sent + |c.requests| - 1 == (sent + 1) + |rest.requests| - 1;
      } else {
        assert c == Calls(Ok(response), [request], 0);
      }
    }
  }

  /** get_resource and head_resource: make_call from no redirects and no
      errors. */
  function GetResource(url: string, command: Option<string>, caller: Caller, server: nat -> Response): Calls {
    MakeCall(url, Get, 0, 0, command, caller, server, 0)
  }

  function HeadResource(url: string, command: Option<string>, caller: Caller, server: nat -> Response): Calls {
    MakeCall(url, Head, 0, 0, command, caller, server, 0)
  }

  /** A first answer that is neither a redirect nor a server error is
      returned after one request. */
  lemma DirectAnswer(url: string, callFunc: CallFunc, command: Option<string>, caller: Caller, server: nat -> Response)
    requires !callFunc.Other?
    requires !IsRedirect(server(0)) && !IsServerError(server(0))
    ensures MakeCall(url, callFunc, 0, 0, command, caller, server, 0)
         == Calls(Ok(server(0)), [Request(url, callFunc, Query(caller, command))], 0)
  {
  }

  /** A server that always redirects is asked as many times as redirects
      remain, and then the call raises with the last Location. */
  lemma {:induction false} EndlessRedirects(url: string, callFunc: CallFunc, redirects: nat, errors: nat,
                                            command: Option<string>, caller: Caller, server: nat -> Response, sent: nat)
    requires !callFunc.Other?
    requires redirects <= MaxRedirects && errors < MaxErrors
    requires forall n :: sent <= n ==> IsRedirect(server(n))
    ensures var c := MakeCall(url, callFunc, redirects, errors, command, caller, server, sent);
      var k := MaxRedirects - redirects;
      && |c.requests| == k && c.slept == 0
      && c.res == Err(TooManyRedirectsMessage(LastLocation(url, server, sent, k)))
    decreases MaxRedirects - redirects
  {
    if redirects < MaxRedirects {
      var next := server(sent).location;
      var k := MaxRedirects - redirects;
      var c := MakeCall(url, callFunc, redirects, errors, command, caller, server, sent);
      var rest := MakeCall(next, callFunc, redirects + 1, errors, None, caller, server, sent + 1);
      EndlessRedirects(next, callFunc, redirects + 1, errors, None, caller, server, sent + 1);
      assert |c.requests| == 1 + |rest.requests| && c.slept == rest.slept && c.res == rest.res by {
        RedirectStep(url, callFunc, redirects, errors, command, caller, server, sent);
      }
      assert LastLocation(next, server, sent + 1, k - 1) == LastLocation(url, server, sent, k) by {
        if k > 1 {
          assert sent + 1 + (k - 1) - 1 == sent + k - 1;
        }
      }
    } else {
      assert MakeCall(url, callFunc, redirects, errors, command, caller, server, sent)
          == Calls(Err(TooManyRedirectsMessage(url)), [], 0);
    }
  }

  /** One redirect: the request is sent, and the call goes on at the
      Location with one redirect fewer left. */
  lemma RedirectStep(url: string, callFunc: CallFunc, redirects: nat, errors: nat,
                     command: Option<string>, caller: Caller, server: nat -> Response, sent: nat)
    requires !callFunc.Other?
    requires redirects < MaxRedirects && errors < MaxErrors && IsRedirect(server(sent))
    ensures var rest := MakeCall(server(sent).location, callFunc, redirects + 1, errors, None, caller, server, sent + 1);
      MakeCall(url, callFunc, redirects, errors, command, caller, server, sent)
      == Prepend(Request(url, callFunc, Query(caller, command)), rest, 0)
  {
  }

  /** The url asked after `k` redirects from `url`. */
  function LastLocation(url: string, server: nat -> Response, sent: nat, k: nat): string {
    if k == 0 then url else server(sent + k - 1).location
  }

  /** Each redirect is followed to the Location the previous answer gave. */
  lemma {:induction false} RedirectsFollowLocation(url: string, callFunc: CallFunc, redirects: nat, errors: nat,
                                                   command: Option<string>, caller: Caller,
                                                   server: nat -> Response, sent: nat, i: nat)
    requires !callFunc.Other?
    requires forall n :: sent <= n ==> IsRedirect(server(n))
    requires 0 < i < |MakeCall(url, callFunc, redirects, errors, command, caller, server, sent).requests|
    ensures MakeCall(url, callFunc, redirects, errors, command, caller, server, sent).requests[i].url
         == server(sent + i - 1).location
    decreases i
  {
    var next := server(sent).location;
    var rest := MakeCall(next, callFunc, redirects + 1, errors, None, caller, server, sent + 1);
    assert MakeCall(url, callFunc, redirects, errors, command, caller, server, sent).requests[i] == rest.requests[i - 1];
    if i > 1 {
      RedirectsFollowLocation(next, callFunc, redirects + 1, errors, None, caller, server, sent + 1, i - 1);
    }
  }

  /** A server that always fails is asked, at the same url, as many times as
      retries remain, with a sleep after each failure, and then the call
      raises. */
  lemma {:induction false} EndlessErrors(url: string, callFunc: CallFunc, redirects: nat, errors: nat,
                                         command: Option<string>, caller: Caller, server: nat -> Response, sent: nat)
    requires !callFunc.Other?
    requires redirects < MaxRedirects && errors <= MaxErrors
    requires forall n :: sent <= n ==> IsServerError(server(n))
    ensures var c := MakeCall(url, callFunc, redirects, errors, command, caller, server, sent);
      && |c.requests| == MaxErrors - errors && c.slept == SleepSeconds * (MaxErrors - errors)
      && c.res == Err(ServerErrorMessage(url))
      && forall i :: 0 <= i < |c.requests| ==> c.requests[i].url == url
    decreases MaxErrors - errors
  {
    if errors < MaxErrors {
      EndlessErrors(url, callFunc, redirects, errors + 1, None, caller, server, sent + 1);
      var rest := MakeCall(url, callFunc, redirects, errors + 1, None, caller, server, sent + 1);
      var c := MakeCall(url, callFunc, redirects, errors, command, caller, server, sent);
      assert c.requests == [Request(url, callFunc, Query(caller, command))] + rest.requests;
      forall i | 0 < i < |c.requests|
        ensures c.requests[i].url == url
      {
        assert c.requests[i] == rest.requests[i - 1];
      }
    }
  }

  /** From a fresh call at most nine requests are sent, whatever the server
      answers: four redirects and four retries at most before the last. */
  lemma RequestsBounded(url: string, callFunc: CallFunc, command: Option<string>, caller: Caller, server: nat -> Response)
    requires !callFunc.Other?
    ensures |MakeCall(url, callFunc, 0, 0, command, caller, server, 0).requests| <= 9
  {
    MakeCallBounded(url, callFunc, 0, 0, command, caller, server, 0);
  }

  // ---------------------------------------------------------------------
  // reset_local_logs
  // ---------------------------------------------------------------------

  function LocalLogDir(root: string): string { root + "/logs" }

  function LocalUdfLogDir(root: string): string { LocalLogDir(root) + "/udf" }

  /** reset_local_logs: remove the log directory with everything in it when
      it is one, then create it and its `udf` directory again.  Creating
      either fails when something else already has its name. */
  method ResetLocalLogs(fs: FileTree, root: string) returns (res: Result<()>)
    modifies fs
    ensures var logs := LocalLogDir(root);
      var udf := LocalUdfLogDir(root);
      var cleared := logs in old(fs.dirs);
      var files := if cleared then map t | t in old(fs.files) && !Under(t, logs) :: old(fs.files)[t] else old(fs.files);
      var dirs := if cleared then set d | d in old(fs.dirs) && !Under(d, logs) else old(fs.dirs);
      && fs.files == files
      && (res.Err? <==> logs in files || logs in dirs || udf in files || udf in dirs)
      && (res.Ok? ==> fs.dirs == dirs + {logs, udf})
      && (res.Err? ==> fs.dirs == if logs in files || logs in dirs then dirs else dirs + {logs})
  {
    var logs := LocalLogDir(root);
    var udf := LocalUdfLogDir(root);
    if logs in fs.dirs {
      fs.RemoveTree(logs);
    }
    res := fs.MakeDir(logs);
    if res.Err? {
      return;
    }
    assert logs != udf;
    res := fs.MakeDir(udf);
  }
}
