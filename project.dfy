/** A Mortar project and the scripts it holds: the directories every project
    must have, whether it is embedded in a larger repository, the scan of an
    entity directory (pig scripts, control scripts, Luigi scripts, Spark
    scripts, Python UDFs) into a name-to-path table, and the path each kind of
    script is run by. */
module Projects {
  import opened Common
  import opened World

  /** Project.required_directories */
  const RequiredDirectories: seq<string> := ["macros", "pigscripts", "udfs"]

  /** Project.new(name, root_path, remote). */
  datatype Project = Project(name: Option<string>, rootPath: Option<string>, remote: Option<string>)

  const ProjectRemoteFile := ".mortar-project-remote"

  /** embedded_project?: the root holds `.mortar-project-remote`. */
  predicate Embedded(root: FileSystem) {
    [ProjectRemoteFile] in root
  }

  // ---------------------------------------------------------------------
  // Entity scanning
  // ---------------------------------------------------------------------

  /** element_name: the basename with the entity's extension taken off (Ruby
      keeps a basename that is nothing but the extension). */
  function ElementName(p: string, ext: string): (r: string)
    ensures NoneIn(r, {'/'})
    ensures var b := Basename(p);
      if ext != "" && EndsWith(b, ext) && |b| > |ext| then r + ext == b else r == b
  {
    var b := Basename(p);
    if ext != "" && EndsWith(b, ext) && |b| > |ext| then b[..|b| - |ext|] else b
  }

  /** A relative path the pattern `**` / `*<ext>` matches: no component is
      hidden, and the last one ends with the extension. */
  predicate Globbed(rel: string, ext: string) {
    var cs := Fields(rel, {'/'});
    (forall i :: 0 <= i < |cs| ==> cs[i] != "" && cs[i][0] != '.')
    && EndsWith(cs[|cs| - 1], ext)
  }

  /** The scanned files, as full paths, in listing order. */
  function Matching(dir: string, listing: seq<string>, ext: string): (r: seq<string>)
    ensures |r| <= |listing|
    ensures forall i :: 0 <= i < |listing| && Globbed(listing[i], ext) ==> dir + "/" + listing[i] in r
    ensures forall p :: p in r ==> exists i :: 0 <= i < |listing| && Globbed(listing[i], ext) && p == dir + "/" + listing[i]
  {
    if |listing| == 0 then []
    else
      var rest := Matching(dir, listing[1..], ext);
      assert forall i :: 1 <= i < |listing| ==> listing[i] == listing[1..][i - 1];
      if Globbed(listing[0], ext) then [dir + "/" + listing[0]] + rest else rest
  }

  function Names(paths: seq<string>, ext: string): (ns: seq<string>)
    ensures |ns| == |paths|
    ensures forall i :: 0 <= i < |paths| ==> ns[i] == ElementName(paths[i], ext)
  {
    seq(|paths|, i requires 0 <= i < |paths| => ElementName(paths[i], ext))
  }

  /** Some name occurs twice. */
  predicate HasDuplicate(ns: seq<string>) {
    exists i, j :: 0 <= i < j < |ns| && ns[i] == ns[j]
  }

  /** The names that occur more than once, each once, in the order of their
      first occurrence (how `group_by` orders its groups). */
  function Duplicates(ns: seq<string>, seen: seq<string>): (ds: seq<string>)
    decreases |ns|
  {
    if |ns| == 0 then []
    else if ns[0] !in seen && ns[0] in ns[1..] then [ns[0]] + Duplicates(ns[1..], seen + [ns[0]])
    else Duplicates(ns[1..], seen + [ns[0]])
  }

  /** `x` occurs at two places of `ns`. */
  predicate Twice(ns: seq<string>, x: string) {
    exists i, j :: 0 <= i < j < |ns| && ns[i] == x && ns[j] == x
  }

  lemma TwiceCons(h: string, t: seq<string>, x: string)
    ensures Twice([h] + t, x) <==> (x == h && x in t) || Twice(t, x)
  {
    var ns := [h] + t;
    if Twice(ns, x) {
      var i, j :| 0 <= i < j < |ns| && ns[i] == x && ns[j] == x;
      if i == 0 {
        assert t[j - 1] == x;
      } else {
        assert t[i - 1] == x && t[j - 1] == x;
      }
    }
    if x == h && x in t {
      var j :| 0 <= j < |t| && t[j] == x;
      assert ns[0] == x && ns[j + 1] == x;
    }
    if Twice(t, x) {
      var i, j :| 0 <= i < j < |t| && t[i] == x && t[j] == x;
      assert ns[i + 1] == x && ns[j + 1] == x;
    }
  }

  /** The duplicate list names exactly the names occurring twice or more that
      were not already seen. */
  lemma {:induction false} DuplicatesSpec(ns: seq<string>, seen: seq<string>, x: string)
    ensures x in Duplicates(ns, seen) <==> x !in seen && Twice(ns, x)
    decreases |ns|
  {
    if |ns| > 0 {
      var t := ns[1..];
      assert ns == [ns[0]] + t;
      DuplicatesSpec(t, seen + [ns[0]], x);
      TwiceCons(ns[0], t, x);
      if x != ns[0] {
        assert x in seen + [ns[0]] <==> x in seen;
      } else if Twice(t, x) {
        var i, j :| 0 <= i < j < |t| && t[i] == x && t[j] == x;
        assert x in t;
      }
    }
  }

  /** There are duplicates to report exactly when some name occurs twice. */
  lemma DuplicatesEmpty(ns: seq<string>)
    ensures |Duplicates(ns, [])| == 0 <==> !HasDuplicate(ns)
  {
    if HasDuplicate(ns) {
      var i, j :| 0 <= i < j < |ns| && ns[i] == ns[j];
      DuplicatesSpec(ns, [], ns[i]);
    }
    if |Duplicates(ns, [])| > 0 {
      var x := Duplicates(ns, [])[0];
      DuplicatesSpec(ns, [], x);
    }
  }

  const DuplicatePrefix :=
    "Multiple scripts found with the same name.  Each script must "
    + "have a unique name regardless of what directory it is in.  Duplicate "
    + "script names found: "

  function DuplicateMessage(ds: seq<string>): string {
    DuplicatePrefix + Inspect(ds)
  }

  function MissingMessage(entity: string): string {
    "Unable to find " + entity + " directory in project"
  }

  function Zip(ns: seq<string>, ps: seq<string>): (r: Assoc<string, string>)
    requires |ns| == |ps|
    ensures |r| == |ns| && forall i :: 0 <= i < |r| ==> r[i] == (ns[i], ps[i])
  {
    seq(|ns|, i requires 0 <= i < |ns| => (ns[i], ps[i]))
  }

  /** The scan of an entity directory that is there: the files found under
      it, by element name, unless two share a name. */
  function Scan(dir: string, ext: string, listing: seq<string>): (r: Result<Assoc<string, string>>)
    ensures r.Err? <==> HasDuplicate(Names(Matching(dir, listing, ext), ext))
  {
    var ps := Matching(dir, listing, ext);
    var ns := Names(ps, ext);
    var ds := Duplicates(ns, []);
    DuplicatesEmpty(ns);
    if |ds| > 0 then Err(DuplicateMessage(ds)) else Ok(Zip(ns, ps))
  }

  /** ProjectEntity#elements: the entity directory `dir` (present or not) with
      the relative paths found under it; an optional entity may be missing. */
  function Elements(dir: string, present: bool, entity: string, ext: string, optional: bool,
                    listing: seq<string>): (r: Result<Assoc<string, string>>)
    ensures !present ==> r == if optional then Ok([]) else Err(MissingMessage(entity))
    ensures present ==> r == Scan(dir, ext, listing)
  {
    if !present then (if optional then Ok([]) else Err(MissingMessage(entity)))
    else Scan(dir, ext, listing)
  }

  /** A failed scan names every script name found twice, and only those. */
  lemma ScanMessage(dir: string, ext: string, listing: seq<string>, x: string)
    requires Scan(dir, ext, listing).Err?
    ensures var ns := Names(Matching(dir, listing, ext), ext);
      Scan(dir, ext, listing).msg == DuplicateMessage(Duplicates(ns, []))
      && (x in Duplicates(ns, []) <==> Twice(ns, x))
  {
    DuplicatesSpec(Names(Matching(dir, listing, ext), ext), [], x);
  }

  /** The scan's table has one entry per scanned file, in listing order, each
      keyed by its element name, and no name twice. */
  lemma ScanTable(dir: string, ext: string, listing: seq<string>)
    requires Scan(dir, ext, listing).Ok?
    ensures var r := Scan(dir, ext, listing).value;
      var ps := Matching(dir, listing, ext);
      DistinctKeys(r) && |r| == |ps|
      && forall i :: 0 <= i < |r| ==> r[i] == (ElementName(ps[i], ext), ps[i])
  {
    var ps := Matching(dir, listing, ext);
    var ns := Names(ps, ext);
    var r := Zip(ns, ps);
    DuplicatesEmpty(ns);
    assert Scan(dir, ext, listing).value == r;
    assert !HasDuplicate(ns);
    assert forall i, j :: 0 <= i < j < |r| ==> r[i].0 == ns[i] && r[j].0 == ns[j];
  }

  /** The scan's table: each script name to its path. */
  lemma ScanLookup(dir: string, ext: string, listing: seq<string>, i: nat)
    requires Scan(dir, ext, listing).Ok?
    requires i < |Matching(dir, listing, ext)|
    ensures var p := Matching(dir, listing, ext)[i];
      Lookup(Scan(dir, ext, listing).value, ElementName(p, ext)) == Some(p)
  {
    ScanTable(dir, ext, listing);
    var r := Scan(dir, ext, listing).value;
    var p := Matching(dir, listing, ext)[i];
    var v := Lookup(r, ElementName(p, ext)).value;
    var k :| 0 <= k < |r| && r[k] == (ElementName(p, ext), v);
    assert r[i].0 == ElementName(p, ext);
    assert k == i;
  }

  // ---------------------------------------------------------------------
  // Executable paths
  // ---------------------------------------------------------------------

  /** The directory part of a relative path, "." when there is none. */
  function Dirname(p: string): string {
    var b := Basename(p);
    if |b| == |p| then "."
    else if |p| - |b| - 1 == 0 then "/"
    else p[..|p| - |b| - 1]
  }

  /** LuigiScript#executable_path */
  function LuigiPath(name: string): string {
    "luigiscripts/" + (name + ".py")
  }

  /** SparkScript#executable_path */
  function SparkPath(name: string): string {
    "sparkscripts/" + name
  }

  /** PigScript#executable_path and ControlScript#executable_path: the
      script's directory relative to the working directory. */
  function PigPath(name: string, relPath: string): string {
    (relPath + "/") + (name + ".pig")
  }

  /** Each executable path names the script it was made for: its element
      name under the entity's extension is the script's name again. */
  lemma LuigiPathNames(name: string)
    requires name != "" && NoneIn(name, {'/'})
    ensures ElementName(LuigiPath(name), ".py") == name
  {
    var b := name + ".py";
    BasenameAfterSlash("luigiscripts/", b);
    assert b[..|b| - 3] == name;
  }

  lemma SparkPathNames(name: string)
    requires name != "" && NoneIn(name, {'/'})
    ensures ElementName(SparkPath(name), "") == name
  {
    BasenameAfterSlash("sparkscripts/", name);
  }

  lemma PigPathNames(name: string, relPath: string)
    requires name != "" && NoneIn(name, {'/'})
    ensures ElementName(PigPath(name, relPath), ".pig") == name
    ensures relPath != "" ==> Dirname(PigPath(name, relPath)) == relPath
  {
    var b := name + ".pig";
    BasenameAfterSlash(relPath + "/", b);
    assert b[..|b| - 4] == name;
    var p := PigPath(name, relPath);
    assert p[..|p| - |b| - 1] == relPath;
  }
}
