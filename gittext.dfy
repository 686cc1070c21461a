/** The text the git client reads back from git (lib/mortar/git.rb): the version
    check, the error rule of the command wrapper, the project names found in
    `git remote -v`, the current branch in `git branch`, the stash message and
    the conflict codes of `git status --porcelain`. */
module GitText {
  import opened Common

  // ---------------------------------------------------------------------
  // has_git?
  // ---------------------------------------------------------------------

  datatype Version = Version(major: nat, minor: nat, revision: nat)

  /** The oldest git the client accepts, and the one from which
      `branch --set-upstream-to` exists. */
  const Required := Version(1, 7, 7)
  const SetUpstreamToVersion := Version(1, 8, 0)

  /** `v` is the same release as `w` or a later one. */
  predicate AtLeast(v: Version, w: Version) {
    v.major > w.major
    || (v.major == w.major && v.minor > w.minor)
    || (v.major == w.major && v.minor == w.minor && v.revision >= w.revision)
  }

  /** The i-th dotted component as a number; a missing one is nil, whose to_i is 0. */
  function Component(vs: seq<string>, i: nat): nat {
    if i < |vs| then ToI(vs[i]) else 0
  }

  /** has_git?: whether `git --version` ran (`ran`) and reported a version at
      least `need`. Its third word is split at the dots; an output with fewer
      than three words makes Ruby call `split` on nil, which raises. */
  function HasGit(output: string, ran: bool, need: Version): (r: Result<bool>)
    ensures !ran ==> r == Ok(false)
    ensures ran ==> (r.Err? <==> |Words(output)| < 3)
    ensures r == Ok(true) ==> ran
  {
    if !ran then Ok(false)
    else
      var words := Words(output);
      if |words| < 3 then Err("undefined method `split' for nil:NilClass")
      else
        var vs := Split(words[2], {'.'});
        var v0, v1, v2 := Component(vs, 0), Component(vs, 1), Component(vs, 2);
        Ok(v0 >= need.major + 1
           || (v0 == need.major && v1 >= need.minor + 1)
           || (v0 == need.major && v1 == need.minor && v2 >= need.revision))
  }

  function Dotted(v: Version): string {
    NatToString(v.major) + "." + NatToString(v.minor) + "." + NatToString(v.revision)
  }

  /** The line `git --version` prints for release `v`, with anything after it. */
  function VersionLine(v: Version, tail: string): string {
    "git version " + Dotted(v) + tail
  }

  /** has_git? reads back the release git reports and compares it in version
      order. */
  lemma HasGitReadsVersion(v: Version, need: Version, tail: string)
    requires tail == [] || IsSpace(tail[0])
    ensures HasGit(VersionLine(v, tail), true, need) == Ok(AtLeast(v, need))
  {
    VersionWord(v, tail);
    SplitDotted(v);
    NatToStringToI(v.major, "");
    NatToStringToI(v.minor, "");
    NatToStringToI(v.revision, "");
    assert NatToString(v.major) + "" == NatToString(v.major);
    assert NatToString(v.minor) + "" == NatToString(v.minor);
    assert NatToString(v.revision) + "" == NatToString(v.revision);
  }

  /** The third word of the version line is the dotted release. */
  lemma VersionWord(v: Version, tail: string)
    requires tail == [] || IsSpace(tail[0])
    ensures |Words(VersionLine(v, tail))| >= 3 && Words(VersionLine(v, tail))[2] == Dotted(v)
  {
    var t := Dotted(v);
    assert forall i :: 0 <= i < |t| ==> IsDigit(t[i]) || t[i] == '.';
    WordsFirst(t, tail);
    assert VersionLine(v, tail) == "git" + [' '] + ("version" + [' '] + (t + tail));
    WordsCons("version", ' ', t + tail);
    WordsCons("git", ' ', "version" + [' '] + (t + tail));
  }

  lemma WordsCons(w: string, c: char, rest: string)
    requires w != "" && NoneIn(w, Whitespace) && c in Whitespace
    ensures Words(w + [c] + rest) == [w] + Words(rest)
  {
    FieldsCons(w, c, rest, Whitespace);
    var f := Fields(rest, Whitespace);
    assert ([w] + f)[1..] == f;
  }

  lemma WordsFirst(t: string, tail: string)
    requires t != "" && NoneIn(t, Whitespace)
    requires tail == [] || IsSpace(tail[0])
    ensures |Words(t + tail)| >= 1 && Words(t + tail)[0] == t
  {
    if tail == [] {
      assert t + tail == t;
      FieldsNoSeparator(t, Whitespace);
    } else {
      assert t + tail == t + [tail[0]] + tail[1..];
      WordsCons(t, tail[0], tail[1..]);
    }
  }

  lemma SplitDotted(v: Version)
    ensures Split(Dotted(v), {'.'}) == [NatToString(v.major), NatToString(v.minor), NatToString(v.revision)]
  {
    var a, b, c := NatToString(v.major), NatToString(v.minor), NatToString(v.revision);
    assert Dotted(v) == a + ['.'] + (b + ['.'] + c);
    assert NoneIn(a, {'.'}) && NoneIn(b, {'.'}) && NoneIn(c, {'.'});
    FieldsCons(a, '.', b + ['.'] + c, {'.'});
    FieldsCons(b, '.', c, {'.'});
    FieldsNoSeparator(c, {'.'});
    assert Fields(Dotted(v), {'.'}) == [a, b, c];
  }

  /** A release that passes a stricter check passes a weaker one: git that
      supports `--set-upstream-to` also passes ensure_has_git. */
  lemma HasGitMonotone(output: string, ran: bool, strict: Version, weak: Version)
    requires AtLeast(strict, weak)
    requires HasGit(output, ran, strict) == Ok(true)
    ensures HasGit(output, ran, weak) == Ok(true)
  {
  }

  // ---------------------------------------------------------------------
  // git(args, check_success, check_git_directory)
  // ---------------------------------------------------------------------

  const NoGitMessage := "git 1.7.7 or higher must be installed"
  const NoDotGitMessage := "No .git directory found"

  function ExecutionError(args: string, output: string): string {
    "Error executing 'git " + args + "':\n" + output
  }

  /** The command wrapper: git must be installed, the `.git` directory must be
      there when the directory check is on, and the command must exit with
      success when the success check is on; the result is git's output with
      white space trimmed at both ends. */
  function GitCommand(installed: bool, hasDotGit: bool, args: string, output: string,
                      success: bool, checkSuccess: bool, checkGitDirectory: bool): (r: Result<string>)
    ensures r.Ok? <==> installed && (hasDotGit || !checkGitDirectory) && (success || !checkSuccess)
    ensures !installed ==> r == Err(NoGitMessage)
    ensures installed && checkGitDirectory && !hasDotGit ==> r == Err(NoDotGitMessage)
    ensures installed && (hasDotGit || !checkGitDirectory) && checkSuccess && !success ==>
              r == Err(ExecutionError(args, Strip(output)))
    ensures r.Ok? ==> r.value == Strip(output)
  {
    if !installed then Err(NoGitMessage)
    else if checkGitDirectory && !hasDotGit then Err(NoDotGitMessage)
    else
      var out := Strip(output);
      if checkSuccess && !success then Err(ExecutionError(args, out)) else Ok(out)
  }

  // ---------------------------------------------------------------------
  // remotes(git_organization)
  // ---------------------------------------------------------------------

  /** Ruby's `\w`: ASCII letters, digits and the underscore. */
  predicate IsWordChar(c: char) {
    ('a' <= c <= 'z') || ('A' <= c <= 'Z') || ('0' <= c <= '9') || c == '_'
  }

  predicate IsHex(c: char) {
    ('0' <= c <= '9') || ('a' <= c <= 'f')
  }

  /** Text matching `[\w\d\.]+`, the host of a remote URL. */
  predicate IsHost(s: string) {
    |s| > 0 && forall i :: 0 <= i < |s| ==> IsWordChar(s[i]) || s[i] == '.'
  }

  /** Text matching `[\w\d-]+`, a project name. */
  predicate IsProjectName(s: string) {
    |s| > 0 && forall i :: 0 <= i < |s| ==> IsWordChar(s[i]) || s[i] == '-'
  }

  predicate AllHex(s: string) {
    forall i :: 0 <= i < |s| ==> IsHex(s[i])
  }

  /** The length of the run of hex digits `s` starts with. */
  function HexRun(s: string): (n: nat)
    ensures n <= |s| && AllHex(s[..n])
    ensures n == |s| || !IsHex(s[n])
  {
    if |s| > 0 && IsHex(s[0]) then
      var n := 1 + HexRun(s[1..]);
      assert s[..n] == [s[0]] + s[1..][..n - 1];
      n
    else 0
  }

  /** The first index of `c` in `s`. */
  function FindChar(s: string, c: char): (r: Option<nat>)
    ensures r.Some? ==> r.value < |s| && s[r.value] == c && c !in s[..r.value]
    ensures r.None? ==> c !in s
  {
    if |s| == 0 then None
    else if s[0] == c then Some(0)
    else
      match FindChar(s[1..], c)
      case None => None
      case Some(i) =>
        assert s[..i + 1] == [s[0]] + s[1..][..i];
        Some(i + 1)
  }

  /** The part of `<24k hex digits>_<name>` or `<name>` that names the project.
      `[a-f0-9]{24}+` is one or more blocks of 24 hex digits (in Ruby's regular
      expressions `{n}+` repeats, it is not possessive), then `_`. Since `_` is
      not a hex digit, the blocks must be exactly the leading hex run. */
  function ProjectOfPath(body: string): (r: Option<string>)
    ensures r.Some? ==> IsProjectName(r.value)
  {
    var n := HexRun(body);
    if n > 0 && n % 24 == 0 && n < |body| && body[n] == '_' && IsProjectName(body[n + 1..]) then
      Some(body[n + 1..])
    else if IsProjectName(body) then Some(body)
    else None
  }

  /** The project a remote URL points at within `org`: the URL must be
      `git@<host>:<org>/<24k hex>_<name>.git` or `git@<host>:<org>/<name>.git`. */
  function ProjectOfUrl(url: string, org: string): (r: Option<string>)
    ensures r.Some? ==> IsProjectName(r.value) && StartsWith(url, "git@") && EndsWith(url, ".git")
  {
    if !StartsWith(url, "git@") then None
    else
      var r := ProjectAfterUser(url[4..], org);
      assert r.Some? ==> url[|url| - 4..] == url[4..][|url[4..]| - 4..];
      r
  }

  /** The project named by `<host>:<org>/<path>.git`, what follows `git@`. */
  function ProjectAfterUser(rest: string, org: string): (r: Option<string>)
    ensures r.Some? ==> IsProjectName(r.value) && EndsWith(rest, ".git")
  {
    match FindChar(rest, ':')
    case None => None
    case Some(i) =>
      var host := rest[..i];
      var after := rest[i + 1..];
      if !IsHost(host) || !StartsWith(after, org + "/") then None
      else
        var mid := after[|org| + 1..];
        if !EndsWith(mid, ".git") then None
        else
          assert rest[|rest| - 4..] == mid[|mid| - 4..];
          ProjectOfPath(mid[..|mid| - 4])
  }

  function RemoteUrl(host: string, org: string, path: string): string {
    "git@" + host + ":" + org + "/" + path + ".git"
  }

  /** `path` has the form `<24k hex digits>_<name>` for some k >= 1. */
  predicate HashPrefixedAt(path: string, k: nat) {
    k >= 1 && 24 * k < |path| && AllHex(path[..24 * k]) && path[24 * k] == '_'
    && IsProjectName(path[24 * k + 1..])
  }

  ghost predicate HashPrefixed(path: string) {
    exists k :: HashPrefixedAt(path, k)
  }

  lemma UrlParts(host: string, org: string, path: string)
    requires IsHost(host)
    ensures ProjectOfUrl(RemoteUrl(host, org, path), org) == ProjectOfPath(path)
  {
    var rest := host + ":" + org + "/" + path + ".git";
    assert RemoteUrl(host, org, path) == "git@" + rest;
    assert ("git@" + rest)[4..] == rest;
    RestParts(host, org, path, ".git");
  }

  lemma RestParts(host: string, org: string, path: string, suffix: string)
    requires IsHost(host) && suffix == ".git"
    ensures ProjectAfterUser(host + ":" + org + "/" + path + suffix, org) == ProjectOfPath(path)
  {
    var mid := path + suffix;
    var after := org + "/" + mid;
    var rest := host + ":" + after;
    assert host + ":" + org + "/" + path + suffix == rest;
    assert rest[..|host|] == host;
    assert ':' !in host;
    FindCharAt(rest, ':', |host|);
    assert rest[|host| + 1..] == after;
    assert after[..|org| + 1] == org + "/";
    assert after[|org| + 1..] == mid;
    assert mid[..|mid| - 4] == path;
    assert mid[|mid| - 4..] == suffix;
  }

  lemma {:induction false} FindCharAt(s: string, c: char, i: nat)
    requires i < |s| && s[i] == c && c !in s[..i]
    ensures FindChar(s, c) == Some(i)
    decreases i
  {
    if i > 0 {
      assert s[0] in s[..i];
      assert s[1..][..i - 1] == s[1..i];
      assert s[1..i] == s[..i][1..];
      FindCharAt(s[1..], c, i - 1);
    }
  }

  /** A URL of the plain form names its project, unless the name itself looks
      like `<24k hex>_<rest>`: then the first pattern wins and the project is
      `<rest>`. */
  lemma PlainUrlProject(host: string, org: string, name: string)
    requires IsHost(host) && IsProjectName(name) && !HashPrefixed(name)
    ensures ProjectOfUrl(RemoteUrl(host, org, name), org) == Some(name)
  {
    UrlParts(host, org, name);
    HashPrefixedOfRun(name);
  }

  /** A hex run of a multiple of 24 characters, an underscore and a project
      name make a hashed name. */
  lemma HashPrefixedOfRun(name: string)
    ensures var n := HexRun(name);
      n > 0 && n % 24 == 0 && n < |name| && name[n] == '_' && IsProjectName(name[n + 1..]) ==> HashPrefixed(name)
  {
    var n := HexRun(name);
    if n > 0 && n % 24 == 0 && n < |name| && name[n] == '_' && IsProjectName(name[n + 1..]) {
      var k := n / 24;
      assert 24 * k == n;
      assert HashPrefixedAt(name, k);
    }
  }

  /** A URL of the hashed form names the project after the underscore. */
  lemma HashedUrlProject(host: string, org: string, hash: string, name: string)
    requires IsHost(host) && IsProjectName(name)
    requires AllHex(hash) && |hash| > 0 && |hash| % 24 == 0
    ensures ProjectOfUrl(RemoteUrl(host, org, hash + "_" + name), org) == Some(name)
  {
    UrlParts(host, org, hash + "_" + name);
    HashedPathProject(hash, name);
  }

  lemma HashedPathProject(hash: string, name: string)
    requires IsProjectName(name)
    requires AllHex(hash) && |hash| > 0 && |hash| % 24 == 0
    ensures ProjectOfPath(hash + "_" + name) == Some(name)
  {
    var path := hash + "_" + name;
    assert path == hash + ("_" + name);
    HexRunStops(hash, "_" + name);
    assert path[|hash|] == '_';
    assert path[|hash| + 1..] == name;
  }

  lemma {:induction false} HexRunStops(h: string, rest: string)
    requires AllHex(h) && (rest == [] || !IsHex(rest[0]))
    ensures HexRun(h + rest) == |h|
    decreases |h|
  {
    if |h| > 0 {
      assert (h + rest)[1..] == h[1..] + rest;
      HexRunStops(h[1..], rest);
    }
  }

  /** The remote a line of `git remote -v` names and its project, when its URL
      is one of the organization's. The line is split at each white-space
      character; a line with no URL field is skipped. */
  function RemoteEntry(line: string, org: string): (r: Option<(string, string)>)
    ensures r.Some? ==> IsProjectName(r.value.1)
  {
    var fields := Split(line, Whitespace);
    if |fields| < 2 then None
    else
      match ProjectOfUrl(fields[1], org)
      case None => None
      case Some(p) => Some((fields[0], p))
  }

  function RemotesFrom(acc: Assoc<string, string>, lines: seq<string>, org: string): Assoc<string, string>
    decreases |lines|
  {
    if |lines| == 0 then acc
    else
      var acc' := match RemoteEntry(lines[0], org)
        case None => acc
        case Some(e) => Put(acc, e.0, e.1);
      RemotesFrom(acc', lines[1..], org)
  }

  /** remotes: remote name to project name, in the order the remotes first
      appear; a later line for the same remote replaces the value. */
  function Remotes(listing: string, org: string): Assoc<string, string> {
    RemotesFrom([], SplitLines(listing), org)
  }

  /** Reference reading: the project of the last line that names remote `k`. */
  function LastEntry(lines: seq<string>, org: string, k: string): Option<string>
    decreases |lines|
  {
    if |lines| == 0 then None
    else
      var later := LastEntry(lines[1..], org, k);
      if later.Some? then later
      else
        match RemoteEntry(lines[0], org)
        case Some(e) => if e.0 == k then Some(e.1) else None
        case None => None
  }

  lemma {:induction false} RemotesFromLookup(acc: Assoc<string, string>, lines: seq<string>, org: string, k: string)
    requires DistinctKeys(acc)
    ensures DistinctKeys(RemotesFrom(acc, lines, org))
    ensures Lookup(RemotesFrom(acc, lines, org), k) ==
              if LastEntry(lines, org, k).Some? then LastEntry(lines, org, k) else Lookup(acc, k)
    decreases |lines|
  {
    if |lines| > 0 {
      var acc' := match RemoteEntry(lines[0], org)
        case None => acc
        case Some(e) => Put(acc, e.0, e.1);
      match RemoteEntry(lines[0], org) {
        case None =>
        case Some(e) => PutLookup(acc, e.0, e.1, k);
      }
      RemotesFromLookup(acc', lines[1..], org, k);
    }
  }

  /** Each remote appears once, with the project of the last line naming it. */
  lemma RemotesLookup(listing: string, org: string, k: string)
    ensures DistinctKeys(Remotes(listing, org))
    ensures Lookup(Remotes(listing, org), k) == LastEntry(SplitLines(listing), org, k)
  {
    RemotesFromLookup([], SplitLines(listing), org, k);
  }

  // ---------------------------------------------------------------------
  // current_branch
  // ---------------------------------------------------------------------

  /** A line matching `^\*\s`. */
  predicate MarksCurrent(line: string) {
    |line| >= 2 && line[0] == '*' && IsSpace(line[1])
  }

  /** The leading run of non-blank characters, `(\S*)`. */
  function NonBlankPrefix(s: string): (r: string)
    ensures |r| <= |s| && r == s[..|r|] && NoneIn(r, Whitespace)
    ensures |r| == |s| || IsSpace(s[|r|])
  {
    if |s| > 0 && !IsSpace(s[0]) then
      var r := [s[0]] + NonBlankPrefix(s[1..]);
      assert r == s[..|r|];
      r
    else ""
  }

  function CurrentIn(lines: seq<string>): (r: Option<string>)
    ensures r.Some? ==> NoneIn(r.value, Whitespace)
    decreases |lines|
  {
    if |lines| == 0 then None
    else if MarksCurrent(lines[0]) then Some(NonBlankPrefix(lines[0][2..]))
    else CurrentIn(lines[1..])
  }

  /** current_branch: the name on the first line that starts with `*` and a
      blank, or an error showing the listing. */
  function CurrentBranch(listing: string): (r: Result<string>)
    ensures r.Ok? ==> NoneIn(r.value, Whitespace)
    ensures r.Err? ==> r.msg == "Unable to find current branch in list " + listing
  {
    match CurrentIn(SplitLines(listing))
    case None => Err("Unable to find current branch in list " + listing)
    case Some(b) => Ok(b)
  }

  /** One line of `git branch`: the current branch is marked with `*`. */
  function BranchLine(name: string, current: string): string {
    (if name == current then "* " else "  ") + name
  }

  function BranchLines(names: seq<string>, current: string): (r: seq<string>)
    ensures |r| == |names|
    ensures forall i :: 0 <= i < |names| ==> r[i] == BranchLine(names[i], current)
  {
    if |names| == 0 then [] else [BranchLine(names[0], current)] + BranchLines(names[1..], current)
  }

  /** What `git branch` prints, as the command wrapper returns it (trimmed). */
  function BranchListing(names: seq<string>, current: string): string {
    Strip(Join(BranchLines(names, current), '\n'))
  }

  /** A name git accepts for a branch holds no white space and no control
      character such as NUL. */
  predicate IsBranchName(s: string) {
    |s| > 0 && NoneIn(s, Whitespace) && '\0' !in s
  }

  /** The listing's lines once trimmed: the first line loses its indentation. */
  function TrimmedLines(names: seq<string>, current: string): (r: seq<string>)
    requires |names| > 0
    ensures |r| == |names|
  {
    var ls := BranchLines(names, current);
    if names[0] == current then ls else [names[0]] + ls[1..]
  }

  /** current_branch reads back the branch `git branch` marks. */
  lemma CurrentBranchOfListing(names: seq<string>, current: string)
    requires current in names
    requires forall i :: 0 <= i < |names| ==> IsBranchName(names[i])
    ensures CurrentBranch(BranchListing(names, current)) == Ok(current)
  {
    var ls := TrimmedLines(names, current);
    var j := FirstIndex(names, current);
    StripListing(names, current);
    forall i | 0 <= i < |ls|
      ensures NoneIn(ls[i], {'\n'})
      ensures i < j ==> !MarksCurrent(ls[i])
      ensures i == j ==> ls[i] == "* " + current
    {
      LineFacts(names, current, i, j);
    }
    SplitLinesJoin(ls);
    assert ls[|ls| - 1] != "";
    assert DropTrailingEmpty(ls) == ls;
    assert names[j] == current;
    CurrentInAt(ls, j, current);
  }

  lemma LineFacts(names: seq<string>, current: string, i: nat, j: nat)
    requires |names| > 0 && i < |names| && j < |names| && names[j] == current && current !in names[..j]
    requires forall k :: 0 <= k < |names| ==> IsBranchName(names[k])
    ensures NoneIn(TrimmedLines(names, current)[i], {'\n'})
    ensures i < j ==> !MarksCurrent(TrimmedLines(names, current)[i])
    ensures i == j ==> TrimmedLines(names, current)[i] == "* " + current
  {
    var ls := BranchLines(names, current);
    var n := names[i];
    assert IsBranchName(n);
    if i < j {
      assert names[..j][i] == n;
      assert n != current;
    }
    if i == 0 && names[0] != current {
      assert TrimmedLines(names, current)[i] == n;
      if |n| >= 2 {
        assert n[1] !in Whitespace;
      }
    } else {
      assert TrimmedLines(names, current)[i] == ls[i] == BranchLine(n, current);
    }
  }

  function FirstIndex(names: seq<string>, x: string): (j: nat)
    requires x in names
    ensures j < |names| && names[j] == x && x !in names[..j]
  {
    if names[0] == x then 0
    else
      var j := 1 + FirstIndex(names[1..], x);
      assert names[..j] == [names[0]] + names[1..][..j - 1];
      j
  }

  lemma {:induction false} CurrentInAt(ls: seq<string>, j: nat, current: string)
    requires j < |ls| && ls[j] == "* " + current && NoneIn(current, Whitespace)
    requires forall i :: 0 <= i < j ==> !MarksCurrent(ls[i])
    ensures CurrentIn(ls) == Some(current)
    decreases j
  {
    if j == 0 {
      assert ls[0][2..] == current;
      NonBlankWhole(current);
    } else {
      CurrentInAt(ls[1..], j - 1, current);
    }
  }

  lemma NonBlankWhole(s: string)
    requires NoneIn(s, Whitespace)
    ensures NonBlankPrefix(s) == s
  {
  }

  /** Trimming the listing removes the indentation of its first line only. */
  lemma StripListing(names: seq<string>, current: string)
    requires |names| > 0
    requires forall i :: 0 <= i < |names| ==> IsBranchName(names[i])
    ensures BranchListing(names, current) == Join(TrimmedLines(names, current), '\n')
  {
    var ls := BranchLines(names, current);
    var last := names[|names| - 1];
    assert IsBranchName(last);
    assert ls[|ls| - 1] == BranchLine(last, current);
    EndsWithName(last, current);
    if names[0] == current {
      StripListingMarkedFirst(ls);
    } else {
      assert IsBranchName(names[0]);
      StripListingIndentedFirst(ls, TrimmedLines(names, current), names[0]);
    }
  }

  lemma StripListingMarkedFirst(ls: seq<string>)
    requires |ls| > 0 && |ls[0]| > 0 && ls[0][0] == '*'
    requires |ls[|ls| - 1]| > 0 && !IsTrailingSpace(ls[|ls| - 1][|ls[|ls| - 1]| - 1])
    ensures Strip(Join(ls, '\n')) == Join(ls, '\n')
  {
    var J := Join(ls, '\n');
    var last := ls[|ls| - 1];
    JoinEnds(ls, '\n');
    JoinStarts(ls, '\n');
    assert J[0] == ls[0][0] by { assert J[..|ls[0]|][0] == J[0]; }
    assert J[|J| - 1] == last[|last| - 1] by { assert J[|J| - |last|..][|last| - 1] == J[|J| - 1]; }
    StripTrimmed(J);
  }

  lemma StripListingIndentedFirst(ls: seq<string>, ls': seq<string>, n0: string)
    requires |ls| > 0 && |ls'| == |ls| && ls[0] == "  " + n0 && ls'[0] == n0 && ls'[1..] == ls[1..]
    requires IsBranchName(n0)
    requires |ls[|ls| - 1]| > 0 && !IsTrailingSpace(ls[|ls| - 1][|ls[|ls| - 1]| - 1])
    ensures Strip(Join(ls, '\n')) == Join(ls', '\n')
  {
    var J := Join(ls, '\n');
    var K := Join(ls', '\n');
    JoinEnds(ls, '\n');
    JoinHead(ls, ls', n0);
    JoinStarts(ls', '\n');
    assert n0[0] !in Whitespace;
    assert !IsSpace(K[0]);
    TrimLeftIndent(K);
    assert K[|K| - 1] == J[|J| - 1];
    TrimRightNoTrailing(K);
  }

  lemma JoinStarts(ls: seq<string>, c: char)
    requires |ls| > 0
    ensures |Join(ls, c)| >= |ls[0]| && Join(ls, c)[..|ls[0]|] == ls[0]
  {
  }

  lemma EndsWithName(name: string, current: string)
    requires IsBranchName(name)
    ensures !IsTrailingSpace(BranchLine(name, current)[|BranchLine(name, current)| - 1])
  {
    var l := BranchLine(name, current);
    assert l[|l| - 1] == name[|name| - 1];
  }

  lemma JoinHead(ls: seq<string>, ls': seq<string>, n0: string)
    requires |ls| > 0 && |ls'| == |ls| && ls[0] == "  " + n0 && ls'[0] == n0 && ls'[1..] == ls[1..]
    ensures Join(ls, '\n') == "  " + Join(ls', '\n')
  {
    if |ls| > 1 {
      assert Join(ls, '\n') == ls[0] + "\n" + Join(ls[1..], '\n');
      assert Join(ls', '\n') == ls'[0] + "\n" + Join(ls'[1..], '\n');
    }
  }

  lemma TrimLeftIndent(k: string)
    requires |k| > 0 && !IsSpace(k[0])
    ensures TrimLeft("  " + k) == k
  {
    var s := "  " + k;
    assert s[1..] == " " + k;
    assert s[1..][1..] == k;
  }

  lemma {:induction false} JoinEnds(ls: seq<string>, c: char)
    requires |ls| > 0
    ensures |Join(ls, c)| >= |ls[|ls| - 1]|
    ensures Join(ls, c)[|Join(ls, c)| - |ls[|ls| - 1]|..] == ls[|ls| - 1]
    decreases |ls|
  {
    if |ls| > 1 {
      JoinEnds(ls[1..], c);
    }
  }

  lemma TrimRightNoTrailing(s: string)
    requires |s| > 0 && !IsTrailingSpace(s[|s| - 1])
    ensures TrimRight(s) == s
  {
  }

  // ---------------------------------------------------------------------
  // did_stash_changes?, has_conflicts?
  // ---------------------------------------------------------------------

  const NoLocalChanges := "No local changes to save"

  /** did_stash_changes?: git did not say there was nothing to save. */
  predicate DidStashChanges(stashOutput: string) {
    !Contains(stashOutput, NoLocalChanges)
  }

  /** The phrase anywhere in the output, even inside another message, counts as
      "nothing stashed" (a substring test). */
  lemma StashNothingAnywhere(before: string, after: string)
    ensures !DidStashChanges(before + NoLocalChanges + after)
  {
    ContainsSelfAndExtensions(before, NoLocalChanges, NoLocalChanges);
    ContainsSelfAndExtensions(before + NoLocalChanges, after, NoLocalChanges);
  }

  /** The porcelain codes of unmerged paths. */
  const ConflictCodes: set<string> := {"DD", "AU", "UD", "UA", "DU", "AA", "UU"}

  /** `status_str[0,2]`: the first two characters, or the whole line if shorter. */
  function StatusCode(line: string): (r: string)
    ensures |r| <= 2 && StartsWith(line, r)
  {
    line[..if |line| < 2 then |line| else 2]
  }

  /** has_conflicts?: some line of `git status --porcelain` has a conflict code. */
  predicate HasConflicts(status: string) {
    var ls := SplitLines(status);
    exists i :: 0 <= i < |ls| && StatusCode(ls[i]) in ConflictCodes
  }

  /** One line of porcelain output: the two-letter code, a blank, the path. */
  function StatusLine(entry: (string, string)): string {
    entry.0 + " " + entry.1
  }

  function StatusLines(entries: seq<(string, string)>): (r: seq<string>)
    ensures |r| == |entries|
    ensures forall i :: 0 <= i < |entries| ==> r[i] == StatusLine(entries[i])
  {
    if |entries| == 0 then [] else [StatusLine(entries[0])] + StatusLines(entries[1..])
  }

  /** A status listing has conflicts exactly when one of its entries has a
      conflict code. */
  lemma ConflictsOfEntries(entries: seq<(string, string)>)
    requires |entries| > 0
    requires forall i :: 0 <= i < |entries| ==>
               |entries[i].0| == 2 && NoneIn(entries[i].0, {'\n'}) && NoneIn(entries[i].1, {'\n'})
    ensures HasConflicts(Join(StatusLines(entries), '\n')) <==>
              exists i :: 0 <= i < |entries| && entries[i].0 in ConflictCodes
  {
    var ls := StatusLines(entries);
    forall i | 0 <= i < |ls| ensures NoneIn(ls[i], {'\n'}) && StatusCode(ls[i]) == entries[i].0 {
      assert ls[i] == entries[i].0 + " " + entries[i].1;
      assert ls[i][..2] == entries[i].0;
    }
    SplitLinesJoin(ls);
    assert ls[|ls| - 1] != "";
    assert DropTrailingEmpty(ls) == ls;
    if HasConflicts(Join(ls, '\n')) {
      var i :| 0 <= i < |ls| && StatusCode(ls[i]) in ConflictCodes;
      assert entries[i].0 in ConflictCodes;
    }
    if exists i :: 0 <= i < |entries| && entries[i].0 in ConflictCodes {
      var i :| 0 <= i < |entries| && entries[i].0 in ConflictCodes;
      assert StatusCode(ls[i]) in ConflictCodes;
    }
  }
}
