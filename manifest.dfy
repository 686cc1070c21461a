/** The project manifest: the whitelist of top-level paths that go into a code
    snapshot, one per line, with `#` comments.  Each edit is a function from
    the project directory before it to the directory after it (or to the
    error Ruby raises). */
module Manifest {
  import opened Common
  import opened World

  const ManifestFile := "project.manifest"
  const LegacyManifestFile := ".mortar-project-manifest"
  const LuigiDir := "luigiscripts"

  /** project_manifest_name: the new name wins, the legacy name is used only
      where it is the one on disk. */
  function Name(fs: FileSystem): (n: string)
    ensures n == ManifestFile || n == LegacyManifestFile
    ensures n == LegacyManifestFile <==> [ManifestFile] !in fs && [LegacyManifestFile] in fs
  {
    if [ManifestFile] in fs then ManifestFile
    else if [LegacyManifestFile] in fs then LegacyManifestFile
    else ManifestFile
  }

  /** The manifest name depends only on which of the two files exist. */
  lemma NameStable(fs: FileSystem, fs': FileSystem)
    requires [ManifestFile] in fs <==> [ManifestFile] in fs'
    requires [LegacyManifestFile] in fs <==> [LegacyManifestFile] in fs'
    ensures Name(fs) == Name(fs')
  {
  }

  // ---------------------------------------------------------------------
  // Edits
  // ---------------------------------------------------------------------

  /** add_entry_to_mortar_project_manifest: unless `entry` already occurs
      somewhere in the file, the file becomes its stripped contents, the entry
      and a newline, each on its own line. */
  function AddEntry(fs: FileSystem, p: Path, name: string, entry: string): (r: Result<FileSystem>)
    ensures r.Ok? <==> IsFile(fs, p)
    ensures r.Ok? && Contains(Strip(fs[p].content), entry) ==> r.value == fs
    ensures r.Ok? && !Contains(Strip(fs[p].content), entry) ==>
      r.value == fs[p := File(Strip(fs[p].content) + "\n" + entry + "\n")]
    ensures r.Ok? ==> r.value.Keys == fs.Keys && IsFile(r.value, p)
  {
    var contents :- Read(fs, p, name);
    var s := Strip(contents);
    if Contains(s, entry) then Ok(fs)
    else Ok(fs[p := File(s + "\n" + entry + "\n")])
  }

  /** Text that neither starts nor ends with white space. */
  predicate Tight(e: string) {
    |e| > 0 && !IsSpace(e[0]) && !IsTrailingSpace(e[|e| - 1])
  }

  /** After AddEntry the entry is in the file, and it still is when the file is
      stripped again. */
  lemma AddEntryHolds(fs: FileSystem, p: Path, name: string, entry: string)
    requires Tight(entry) && IsFile(fs, p)
    ensures Contains(Strip(AddEntry(fs, p, name, entry).value[p].content), entry)
  {
    var s := Strip(fs[p].content);
    if !Contains(s, entry) {
      var c := s + "\n" + entry + "\n";
      assert c[|s| + 1..|s| + 1 + |entry|] == entry;
      ContainsAt(c, entry, |s| + 1);
      StripKeeps(c, entry);
    }
  }

  /** Adding the same entry twice is adding it once. */
  lemma AddEntryIdempotent(fs: FileSystem, p: Path, name: string, entry: string)
    requires Tight(entry)
    ensures var r := AddEntry(fs, p, name, entry);
      r.Ok? ==> AddEntry(r.value, p, name, entry) == r
  {
    if IsFile(fs, p) {
      AddEntryHolds(fs, p, name, entry);
    }
  }

  /** add_newline_to_file: a newline is appended unless the file already ends
      with one (an empty file gets one). */
  function AddNewline(fs: FileSystem, p: Path, name: string): (r: Result<FileSystem>)
    ensures r.Ok? <==> IsFile(fs, p)
    ensures r.Ok? ==> r.value.Keys == fs.Keys && IsFile(r.value, p)
    ensures r.Ok? ==> EndsWith(r.value[p].content, "\n")
    ensures r.Ok? ==> var c := fs[p].content;
      r.value[p].content == (if EndsWith(c, "\n") then c else c + "\n")
    ensures r.Ok? ==> forall q :: q in fs && q != p ==> r.value[q] == fs[q]
  {
    var contents :- Read(fs, p, name);
    if |contents| > 0 && contents[|contents| - 1] == '\n' then Ok(fs)
    else Ok(fs[p := File(contents + "\n")])
  }

  lemma {:induction false} AddNewlineIdempotent(fs: FileSystem, p: Path, name: string)
    ensures var r := AddNewline(fs, p, name);
      r.Ok? ==> AddNewline(r.value, p, name) == r
  {
    var r := AddNewline(fs, p, name);
    if r.Ok? {
      var fs' := r.value;
      var c := fs'[p].content;
      assert EndsWith(c, "\n");
      assert |c| > 0 && c[|c| - 1] == '\n' by { assert c[|c| - 1..][0] == c[|c| - 1]; }
      assert Read(fs', p, name) == Ok(c);
    }
  }

  /** ensure_luigiscripts_in_project_manifest */
  function EnsureLuigi(fs: FileSystem): (r: Result<FileSystem>)
    ensures !IsDir(fs, [LuigiDir]) ==> r == Ok(fs)
    ensures IsDir(fs, [LuigiDir]) ==> r == AddEntry(fs, [Name(fs)], Name(fs), LuigiDir)
    ensures r.Ok? ==> r.value.Keys == fs.Keys && forall q :: q in fs && q != [Name(fs)] ==> r.value[q] == fs[q]
  {
    if IsDir(fs, [LuigiDir]) then AddEntry(fs, [Name(fs)], Name(fs), LuigiDir) else Ok(fs)
  }

  /** The lines of a new manifest. */
  function DefaultEntries(fs: FileSystem): (xs: seq<string>)
    ensures |xs| >= 3 && xs[..3] == ["macros", "pigscripts", "udfs"]
    ensures "lib" in xs <==> IsDir(fs, ["lib"])
    ensures LuigiDir in xs <==> IsDir(fs, [LuigiDir])
    ensures forall i :: 0 <= i < |xs| ==> Tight(xs[i]) && NoneIn(xs[i], {'\n'})
  {
    ["macros", "pigscripts", "udfs"]
      + (if IsDir(fs, ["lib"]) then ["lib"] else [])
      + (if IsDir(fs, [LuigiDir]) then [LuigiDir] else [])
  }

  /** create_mortar_project_manifest('.'): one line per default entry. */
  function Create(fs: FileSystem): (r: FileSystem)
    ensures r == fs[[Name(fs)] := File(Lines(DefaultEntries(fs)))]
  {
    fs[[Name(fs)] := File(Lines(DefaultEntries(fs)))]
  }

  /** A new manifest reads back as exactly its default entries. */
  lemma CreateReadsBack(fs: FileSystem)
    ensures SplitLines(Create(fs)[[Name(fs)]].content) == DefaultEntries(fs)
  {
    SplitLinesOfLines(DefaultEntries(fs));
  }

  /** ensure_valid_mortar_project_manifest */
  function EnsureValid(fs: FileSystem): (r: Result<FileSystem>)
  {
    var name := Name(fs);
    if [name] in fs then
      var fs1 :- EnsureLuigi(fs);
      AddNewline(fs1, [Name(fs1)], Name(fs1))
    else Ok(Create(fs))
  }

  /** A valid manifest: a file under the manifest name, ending with a newline,
      that names the Luigi directory whenever there is one. */
  predicate ValidManifest(fs: FileSystem) {
    var p := [Name(fs)];
    IsFile(fs, p) && EndsWith(fs[p].content, "\n")
    && (IsDir(fs, [LuigiDir]) ==> Contains(Strip(fs[p].content), LuigiDir))
  }

  /** What EnsureValid does: it fails only on a manifest name that is taken by
      a directory, touches nothing but the manifest, and leaves a valid one. */
  lemma EnsureValidSpec(fs: FileSystem)
    ensures var r := EnsureValid(fs);
      (r.Err? <==> [Name(fs)] in fs && fs[[Name(fs)]].Dir?)
      && (r.Ok? ==>
            ValidManifest(r.value)
            && Name(r.value) == Name(fs)
            && r.value.Keys == fs.Keys + {[Name(fs)]}
            && forall q :: q in fs && q != [Name(fs)] ==> r.value[q] == fs[q])
  {
    if [Name(fs)] in fs {
      EnsureValidExisting(fs);
    } else {
      EnsureValidCreated(fs);
    }
  }

  lemma {:induction false} EnsureValidExisting(fs: FileSystem)
    requires [Name(fs)] in fs
    ensures var r := EnsureValid(fs);
      (r.Err? <==> fs[[Name(fs)]].Dir?)
      && (r.Ok? ==>
            ValidManifest(r.value)
            && Name(r.value) == Name(fs)
            && r.value.Keys == fs.Keys
            && forall q :: q in fs && q != [Name(fs)] ==> r.value[q] == fs[q])
  {
    if IsFile(fs, [Name(fs)]) {
      EnsureValidOnFile(fs);
    } else {
      EnsureValidOnDir(fs);
    }
  }

  lemma EnsureValidOnFile(fs: FileSystem)
    requires IsFile(fs, [Name(fs)])
    ensures var r := EnsureValid(fs);
      && r.Ok? && ValidManifest(r.value) && Name(r.value) == Name(fs) && r.value.Keys == fs.Keys
      && forall q :: q in fs && q != [Name(fs)] ==> r.value[q] == fs[q]
  {
    var name := Name(fs);
    var p := [name];
    var fs1 := EnsureLuigi(fs).value;
    NameStable(fs, fs1);
    EnsureValidFile(fs, fs1);
    var r := AddNewline(fs1, p, name);
    assert EnsureValid(fs) == r;
    OnlyAtChanged(fs, fs1, r.value, p);
  }

  /** Two edits that each change only `p` together change only `p`. */
  lemma OnlyAtChanged(fs: FileSystem, fs1: FileSystem, fs2: FileSystem, p: Path)
    requires fs1.Keys == fs.Keys && forall q :: q in fs && q != p ==> fs1[q] == fs[q]
    requires fs2.Keys == fs1.Keys && forall q :: q in fs1 && q != p ==> fs2[q] == fs1[q]
    ensures fs2.Keys == fs.Keys && forall q :: q in fs && q != p ==> fs2[q] == fs[q]
  {
  }

  lemma EnsureValidOnDir(fs: FileSystem)
    requires [Name(fs)] in fs && fs[[Name(fs)]].Dir?
    ensures EnsureValid(fs).Err?
  {
    if IsDir(fs, [LuigiDir]) {
      assert EnsureLuigi(fs).Err?;
    } else {
      assert EnsureValid(fs) == AddNewline(fs, [Name(fs)], Name(fs));
    }
  }

  lemma EnsureValidFile(fs: FileSystem, fs1: FileSystem)
    requires IsFile(fs, [Name(fs)]) && EnsureLuigi(fs) == Ok(fs1) && Name(fs1) == Name(fs)
    ensures var r := AddNewline(fs1, [Name(fs)], Name(fs));
      r.Ok? && ValidManifest(r.value) && Name(r.value) == Name(fs)
  {
    var name := Name(fs);
    var p := [name];
    if IsDir(fs, [LuigiDir]) {
      assert Tight(LuigiDir) by { LuigiTight(); }
      AddEntryHolds(fs, p, name, LuigiDir);
    }
    NewlineKeepsValid(fs1, p);
  }

  lemma LuigiTight()
    ensures Tight(LuigiDir)
  {
  }

  /** Appending the final newline keeps the Luigi entry in place. */
  lemma NewlineKeepsValid(fs: FileSystem, p: Path)
    requires p == [Name(fs)] && IsFile(fs, p)
    requires IsDir(fs, [LuigiDir]) ==> Contains(Strip(fs[p].content), LuigiDir)
    ensures var r := AddNewline(fs, p, Name(fs));
      r.Ok? && ValidManifest(r.value) && Name(r.value) == Name(fs)
  {
    var r := AddNewline(fs, p, Name(fs)).value;
    NameStable(fs, r);
    assert IsDir(r, [LuigiDir]) == IsDir(fs, [LuigiDir]);
    var c := fs[p].content;
    if IsDir(fs, [LuigiDir]) && !EndsWith(c, "\n") {
      LuigiTight();
      StripTrimmedContains(c, LuigiDir);
    }
  }

  lemma EnsureValidCreated(fs: FileSystem)
    requires [Name(fs)] !in fs
    ensures var r := EnsureValid(fs);
      r.Ok? && ValidManifest(r.value)
      && Name(r.value) == Name(fs)
      && r.value.Keys == fs.Keys + {[Name(fs)]}
      && forall q :: q in fs ==> r.value[q] == fs[q]
  {
    var xs := DefaultEntries(fs);
    LinesContains(xs);
    assert Name(fs) == ManifestFile;
    var fs' := Create(fs);
    assert IsDir(fs', [LuigiDir]) == IsDir(fs, [LuigiDir]);
    if IsDir(fs, [LuigiDir]) {
      var i :| 0 <= i < |xs| && xs[i] == LuigiDir;
      StripKeeps(Lines(xs), LuigiDir);
    }
  }

  /** A newline appended to a file does not hide what its stripped contents
      held. */
  lemma StripTrimmedContains(c: string, e: string)
    requires Tight(e) && Contains(Strip(c), e)
    ensures Contains(Strip(c + "\n"), e)
  {
    var k :| OccursAt(c, Strip(c), k);
    ContainsWithin(c, Strip(c), k, e);
    ContainsSelfAndExtensions(c, "\n", e);
    StripKeeps(c + "\n", e);
  }

  /** Running ensure_valid_mortar_project_manifest again changes nothing. */
  lemma EnsureValidIdempotent(fs: FileSystem)
    requires EnsureValid(fs).Ok?
    ensures EnsureValid(EnsureValid(fs).value) == EnsureValid(fs)
  {
    EnsureValidSpec(fs);
    var fs' := EnsureValid(fs).value;
    var p := [Name(fs')];
    assert IsDir(fs', [LuigiDir]) == IsDir(fs, [LuigiDir]);
    assert EnsureLuigi(fs') == Ok(fs');
    assert AddNewline(fs', p, Name(fs')) == Ok(fs');
  }

  // ---------------------------------------------------------------------
  // The path list
  // ---------------------------------------------------------------------

  /** A manifest line that names a path: not blank and not a `#` comment once
      trimmed. */
  predicate Keep(line: string) {
    var s := Strip(line);
    s != [] && !StartsWith(s, "#")
  }

  /** The `select` over the manifest lines: the lines kept, as written and in
      order. */
  function Kept(lines: seq<string>): (r: seq<string>)
    ensures forall i :: 0 <= i < |r| ==> Keep(r[i]) && r[i] in lines
    ensures |r| <= |lines|
  {
    if |lines| == 0 then []
    else (if Keep(lines[0]) then [lines[0]] else []) + Kept(lines[1..])
  }

  /** Filtering distributes over concatenation: order is kept. */
  lemma {:induction false} KeptAppend(a: seq<string>, b: seq<string>)
    ensures Kept(a + b) == Kept(a) + Kept(b)
    decreases |a|
  {
    if |a| == 0 {
      assert a + b == b;
    } else {
      assert (a + b)[1..] == a[1..] + b;
      KeptAppend(a[1..], b);
    }
  }

  /** Every line that names a path is kept. */
  lemma {:induction false} KeptComplete(lines: seq<string>, x: string)
    requires x in lines && Keep(x)
    ensures x in Kept(lines)
    decreases |lines|
  {
    if lines[0] != x {
      KeptComplete(lines[1..], x);
    }
  }

  /** The first listed path that does not exist, if any. */
  function FirstMissing(ws: Workspace, ls: seq<string>): (r: Option<string>)
    ensures r.None? <==> forall i :: 0 <= i < |ls| ==> Exists(ws, ls[i])
    ensures r.Some? ==> exists i :: 0 <= i < |ls| && ls[i] == r.value && !Exists(ws, ls[i])
                          && forall j :: 0 <= j < i ==> Exists(ws, ls[j])
  {
    if |ls| == 0 then None
    else if !Exists(ws, ls[0]) then Some(ls[0])
    else
      var r := FirstMissing(ws, ls[1..]);
      if r.Some? then
        var i :| 0 <= i < |ls[1..]| && ls[1..][i] == r.value && !Exists(ws, ls[1..][i])
                 && forall j :: 0 <= j < i ==> Exists(ws, ls[1..][j]);
        assert ls[i + 1] == r.value && !Exists(ws, ls[i + 1]);
        assert forall j :: 0 <= j < i + 1 ==> j == 0 || ls[j] == ls[1..][j - 1];
        r
      else r
  }

  function Missing(name: string, p: string): string {
    name + " includes file/dir \"" + p + "\" that is not in the mortar project directory."
  }

  /** The lines of the manifest that will be copied, `.git` appended first
      when asked for. */
  function Listed(content: string, includeGit: bool): seq<string> {
    Kept(SplitLines(content) + (if includeGit then [".git"] else []))
  }

  /** The test of every listed path against the directory. */
  function CheckListed(ws: Workspace, name: string, ls: seq<string>): (r: Result<(Workspace, seq<string>)>)
    ensures r.Ok? <==> forall i :: 0 <= i < |ls| ==> Exists(ws, ls[i])
    ensures r.Ok? ==> r.value == (ws, ls)
    ensures r.Err? ==> exists i :: 0 <= i < |ls| && !Exists(ws, ls[i]) && r.msg == Missing(name, ls[i])
                          && forall j :: 0 <= j < i ==> Exists(ws, ls[j])
  {
    match FirstMissing(ws, ls)
    case Some(p) => Err(Missing(name, p))
    case None => Ok((ws, ls))
  }

  /** mortar_manifest_pathlist: the directory with its manifest made valid, and
      the kept manifest lines, all of which must exist. */
  function Pathlist(ws: Workspace, includeGit: bool): (r: Result<(Workspace, seq<string>)>)
  {
    var files :- EnsureValid(ws.files);
    var name := Name(files);
    var content :- Read(files, [name], name);
    CheckListed(ws.(files := files), name, Listed(content, includeGit))
  }

  lemma KeepGit()
    ensures Keep(".git")
  {
    StripTrimmed(".git");
    assert ".git"[0] != '#';
  }

  /** The kept lines, then `.git`: appending `.git` before filtering is the
      same as appending it after. */
  lemma ListedSpec(content: string, includeGit: bool)
    ensures Listed(content, includeGit)
         == Kept(SplitLines(content)) + (if includeGit then [".git"] else [])
  {
    var extra := if includeGit then [".git"] else [];
    KeptAppend(SplitLines(content), extra);
    if includeGit {
      KeepGit();
      assert Kept(extra) == [".git"] + Kept([]);
    }
  }

  /** What the path list is: the kept manifest lines in file order followed by
      `.git` when asked for; it exists exactly when every one of them names an
      existing path, and otherwise the error names the first one that does
      not. */
  lemma PathlistSpec(ws: Workspace, includeGit: bool)
    requires EnsureValid(ws.files).Ok?
    ensures var files := EnsureValid(ws.files).value;
      var ws1 := ws.(files := files);
      var ls := Kept(SplitLines(files[[Name(files)]].content)) + (if includeGit then [".git"] else []);
      var r := Pathlist(ws, includeGit);
      (r.Ok? <==> forall i :: 0 <= i < |ls| ==> Exists(ws1, ls[i]))
      && (r.Ok? ==> r.value == (ws1, ls))
      && (r.Err? ==> exists i :: 0 <= i < |ls| && !Exists(ws1, ls[i])
                       && (forall j :: 0 <= j < i ==> Exists(ws1, ls[j]))
                       && r.msg == Missing(Name(files), ls[i]))
  {
    EnsureValidSpec(ws.files);
    var files := EnsureValid(ws.files).value;
    var name := Name(files);
    assert Read(files, [name], name) == Ok(files[[name]].content);
    ListedSpec(files[[name]].content, includeGit);
    assert Pathlist(ws, includeGit)
        == CheckListed(ws.(files := files), name, Listed(files[[name]].content, includeGit));
  }

  /** Listing a directory whose manifest was just made valid lists it the
      same way again. */
  lemma PathlistStable(ws: Workspace, includeGit: bool)
    requires Pathlist(ws, includeGit).Ok?
    ensures Pathlist(Pathlist(ws, includeGit).value.0, includeGit) == Pathlist(ws, includeGit)
  {
    EnsureValidIdempotent(ws.files);
    PathlistSpec(ws, includeGit);
    var ws1 := Pathlist(ws, includeGit).value.0;
    PathlistSpec(ws1, includeGit);
  }
}
