/** The S3 download helpers: splitting an `s3://bucket/key` path, telling
    the files under a key from folders and hidden files, and writing the
    objects found to local files, one file each or all appended to one. */
module S3Download {
  import opened Common
  import opened LocalFiles

  // ---------------------------------------------------------------------
  // URI.parse, for the shapes an S3 path takes
  // ---------------------------------------------------------------------

  /** The parts of a parsed URI that the S3 helpers read. */
  datatype Uri = Uri(scheme: Option<string>, host: Option<string>, path: string)

  predicate IsLetter(c: char) { 'a' <= c <= 'z' || 'A' <= c <= 'Z' }

  predicate SchemeChar(c: char) { IsLetter(c) || IsDigit(c) || c == '+' || c == '-' || c == '.' }

  /** A URI scheme: a letter, then letters, digits, `+`, `-` or `.`. */
  predicate IsScheme(s: string) {
    |s| > 0 && IsLetter(s[0]) && forall i :: 0 < i < |s| ==> SchemeChar(s[i])
  }

  /** The characters a host name is made of. */
  predicate HostChar(c: char) { IsLetter(c) || IsDigit(c) || c == '-' || c == '.' }

  predicate IsHostName(s: string) {
    forall i :: 0 <= i < |s| ==> HostChar(s[i])
  }

  /** The length of the longest prefix of `s` holding none of `stop`. */
  function Span(s: string, stop: set<char>): (k: nat)
    ensures k <= |s| && NoneIn(s[..k], stop)
    ensures k < |s| ==> s[k] in stop
  {
    if |s| == 0 then 0
    else if s[0] in stop then 0
    else
      var k := 1 + Span(s[1..], stop);
      assert s[..k] == [s[0]] + s[1..][..k - 1];
      k
  }

  const QueryOrFragment: set<char> := {'?', '#'}
  const EndOfAuthority: set<char> := {'/', '?', '#'}

  /** The error URI.parse raises for a host that is not a host name. */
  function RegistryMessage(scheme: Option<string>, host: string): string {
    "the scheme " + (if scheme.Some? then scheme.value else "") + " does not accept registry part: "
    + host + " (or bad hostname?)"
  }

  /** URI.parse: an optional scheme, then an optional `//authority`, then
      the path up to the query or the fragment. */
  function ParseUri(s: string): (r: Result<Uri>)
  {
    var (scheme, rest) := SchemeOf(s);
    ParseHierarchy(scheme, rest)
  }

  /** The scheme, when the text before the first `:` is one, and what
      follows it. */
  function SchemeOf(s: string): (r: (Option<string>, string))
  {
    var (before, after) := SplitOnce(s, ':');
    if after.Some? && IsScheme(before) then (Some(before), after.value) else (None, s)
  }

  function ParseHierarchy(scheme: Option<string>, rest: string): (r: Result<Uri>)
  {
    if StartsWith(rest, "//") then ParseAuthority(scheme, rest[2..])
    else Ok(Uri(scheme, None, PathOf(rest)))
  }

  /** An empty authority has no host, and an authority that is not a host
      name is refused. */
  function ParseAuthority(scheme: Option<string>, t: string): (r: Result<Uri>)
  {
    var k := Span(t, EndOfAuthority);
    if k == 0 then Ok(Uri(scheme, None, PathOf(t)))
    else if IsHostName(t[..k]) then Ok(Uri(scheme, Some(t[..k]), PathOf(t[k..])))
    else Err(RegistryMessage(scheme, t[..k]))
  }

  /** The path: everything before the query or the fragment. */
  function PathOf(s: string): (r: string)
    ensures StartsWith(s, r) && NoneIn(r, QueryOrFragment)
    ensures |r| < |s| ==> s[|r|] in QueryOrFragment
  {
    s[..Span(s, QueryOrFragment)]
  }

  // ---------------------------------------------------------------------
  // get_bucket_and_key, is_valid_s3_path
  // ---------------------------------------------------------------------

  const UnderscoreAdvice :=
    ".\nIt is strongly suggested that your bucket name does not contain "
    + "an underscore character."
    + "\nPlease see http://blog.mortardata.com/post/58920122308/s3-hadoop-performance at tip #4."

  function InvalidPathMessage(s3Path: string): string {
    "Requested S3 path, " + s3Path + ", is invalid. Please ensure that your S3 path begins with 's3://'."
    + "  Example: s3://my-bucket/my-key."
  }

  /** is_valid_s3_path: scheme `s3`, a host, and a path longer than its
      leading `/`. */
  predicate IsValidS3Path(uri: Uri) {
    uri.scheme == Some("s3") && uri.host.Some? && |uri.path| >= 2
  }

  /** get_bucket_and_key: the host is the bucket, the path without its
      first character the key. */
  function GetBucketAndKey(s3Path: string): (r: Result<(string, string)>)
    ensures ParseUri(s3Path).Err? ==> r == Err(ParseUri(s3Path).msg + UnderscoreAdvice)
    ensures ParseUri(s3Path).Ok? && !IsValidS3Path(ParseUri(s3Path).value) ==> r == Err(InvalidPathMessage(s3Path))
    ensures r.Ok? ==> r.value.0 != "" && r.value.1 != ""
  {
    match ParseUri(s3Path)
    case Err(m) => Err(m + UnderscoreAdvice)
    case Ok(uri) =>
      if IsValidS3Path(uri) then Ok((uri.host.value, uri.path[1..])) else Err(InvalidPathMessage(s3Path))
  }

  /** An `s3://bucket/key` path is split into its bucket and its key, however
      many `/` the key holds. */
  lemma BucketAndKeyOfPath(bucket: string, key: string)
    requires bucket != "" && IsHostName(bucket)
    requires key != "" && NoneIn(key, QueryOrFragment)
    ensures GetBucketAndKey("s3://" + bucket + "/" + key) == Ok((bucket, key))
  {
    var path := "/" + key;
    var s := "s3:" + ("//" + bucket + path);
    ParseS3Path(bucket, path);
    ValidPathSplit(s, Uri(Some("s3"), Some(bucket), path));
    assert path[1..] == key;
    assert "s3://" + bucket + "/" + key == s;
  }

  lemma ValidPathSplit(s: string, uri: Uri)
    requires ParseUri(s) == Ok(uri) && IsValidS3Path(uri)
    ensures GetBucketAndKey(s) == Ok((uri.host.value, uri.path[1..]))
  {
  }

  lemma ParseS3Path(bucket: string, path: string)
    requires bucket != "" && IsHostName(bucket)
    requires |path| > 0 && path[0] == '/' && NoneIn(path, QueryOrFragment)
    ensures ParseUri("s3:" + ("//" + bucket + path)) == Ok(Uri(Some("s3"), Some(bucket), path))
  {
    var rest := "//" + bucket + path;
    SchemeOfS3(rest);
    assert rest[2..] == bucket + path;
    AuthorityOfHost(bucket, path);
  }

  lemma SchemeOfS3(rest: string)
    ensures SchemeOf("s3:" + rest) == (Some("s3"), rest)
  {
    assert "s3:" + rest == "s3" + [':'] + rest;
    SplitOnceAfter("s3", rest);
    assert IsScheme("s3");
  }

  lemma AuthorityOfHost(host: string, path: string)
    requires host != "" && IsHostName(host)
    requires |path| > 0 && path[0] == '/' && NoneIn(path, QueryOrFragment)
    ensures ParseAuthority(Some("s3"), host + path) == Ok(Uri(Some("s3"), Some(host), path))
  {
    var t := host + path;
    SpanUpTo(host, path, EndOfAuthority);
    assert Span(t, EndOfAuthority) == |host|;
    assert t[..|host|] == host && t[|host|..] == path;
    SpanAll(path, QueryOrFragment);
    assert PathOf(t[|host|..]) == path;
  }

  /** Only such a path is accepted: an accepted path starts with `s3://`, its
      bucket, `/` and its key, and only a query or a fragment can follow. */
  lemma AcceptedPathShape(s3Path: string)
    requires GetBucketAndKey(s3Path).Ok?
    ensures var (bucket, key) := GetBucketAndKey(s3Path).value;
      var p := "s3://" + bucket + "/" + key;
      StartsWith(s3Path, p) && (|s3Path| == |p| || s3Path[|p|] in QueryOrFragment)
  {
    var (scheme, rest) := SchemeOf(s3Path);
    var uri := ParseUri(s3Path).value;
    assert ParseHierarchy(scheme, rest) == Ok(uri) && IsValidS3Path(uri);
    SchemeShape(s3Path);
    HierarchyWithHost(scheme, rest);
    var t := rest[2..];
    AuthorityShape(scheme, t);
    var (bucket, key) := GetBucketAndKey(s3Path).value;
    assert bucket == uri.host.value && key == uri.path[1..];
    var e := t[|bucket| + |uri.path|..];
    Assemble(s3Path, rest, t, bucket, uri.path, e, key);
  }

  /** A hierarchy with a host starts with `//` and the authority. */
  lemma HierarchyWithHost(scheme: Option<string>, rest: string)
    requires ParseHierarchy(scheme, rest).Ok? && ParseHierarchy(scheme, rest).value.host.Some?
    ensures StartsWith(rest, "//") && ParseHierarchy(scheme, rest) == ParseAuthority(scheme, rest[2..])
  {
  }

  lemma Assemble(s: string, rest: string, t: string, host: string, path: string, e: string, key: string)
    requires s == "s3" + ":" + rest && StartsWith(rest, "//") && t == rest[2..]
    requires t == host + path + e && |path| > 0 && path[0] == '/' && key == path[1..]
    ensures s == "s3://" + host + "/" + key + e
  {
    assert rest == "//" + t;
    assert path == "/" + key;
  }

  /** A text with a scheme is that scheme, `:` and the rest. */
  lemma SchemeShape(s: string)
    requires SchemeOf(s).0.Some?
    ensures s == SchemeOf(s).0.value + ":" + SchemeOf(s).1
  {
  }

  /** An authority with a host is the host, then the path, then nothing or
      a query or a fragment; the path starts with `/` when it is not
      empty. */
  lemma AuthorityShape(scheme: Option<string>, t: string)
    requires ParseAuthority(scheme, t).Ok? && ParseAuthority(scheme, t).value.host.Some?
    ensures var uri := ParseAuthority(scheme, t).value;
      var n := |uri.host.value| + |uri.path|;
      && n <= |t| && t == uri.host.value + uri.path + t[n..]
      && (n == |t| || t[n] in QueryOrFragment)
      && (|uri.path| > 0 ==> uri.path[0] == '/')
  {
    var uri := ParseAuthority(scheme, t).value;
    var k := Span(t, EndOfAuthority);
    var tail := t[k..];
    assert uri.host.value == t[..k] && uri.path == PathOf(tail);
    assert t == t[..k] + tail;
    var path := uri.path;
    if |path| > 0 {
      assert tail[0] == t[k] && t[k] in EndOfAuthority && path[0] == tail[0];
    }
    assert tail == path + tail[|path|..];
  }

  /** Splitting at the first `:` of a text whose prefix has none. */
  lemma {:induction false} SplitOnceAfter(a: string, b: string)
    requires ':' !in a
    ensures SplitOnce(a + [':'] + b, ':') == (a, Some(b))
    decreases |a|
  {
    if |a| > 0 {
      assert (a + [':'] + b)[1..] == a[1..] + [':'] + b;
      assert a[0] in a;
      SplitOnceAfter(a[1..], b);
      assert a == [a[0]] + a[1..];
    }
  }

  lemma {:induction false} SpanUpTo(a: string, b: string, stop: set<char>)
    requires NoneIn(a, stop) && |b| > 0 && b[0] in stop
    ensures Span(a + b, stop) == |a|
    decreases |a|
  {
    if |a| > 0 {
      assert (a + b)[0] == a[0] && (a + b)[1..] == a[1..] + b;
      SpanUpTo(a[1..], b, stop);
    } else {
      assert a + b == b;
    }
  }

  lemma {:induction false} SpanAll(a: string, stop: set<char>)
    requires NoneIn(a, stop)
    ensures Span(a, stop) == |a|
    decreases |a|
  {
    if |a| > 0 {
      SpanAll(a[1..], stop);
    }
  }

  /** A text lacking one of the characters of `sub` does not contain it. */
  lemma MissingCharNotContained(s: string, sub: string, j: nat)
    requires j < |sub| && sub[j] !in s
    ensures !Contains(s, sub)
  {
    ContainsIff(s, sub);
    forall i | 0 <= i < |s|
      ensures !OccursAt(s, sub, i)
    {
      if i + |sub| <= |s| {
        assert s[i..i + |sub|][j] == s[i + j];
      }
    }
  }

  // ---------------------------------------------------------------------
  // remove_slash, get_file_name, is_not_folder, is_file, is_hidden_file
  // ---------------------------------------------------------------------

  /** remove_slash: one trailing `/` dropped. */
  function RemoveSlash(s: string): (r: string)
    ensures EndsWith(s, "/") ==> r + "/" == s
    ensures !EndsWith(s, "/") ==> r == s
  {
    if EndsWith(s, "/") then s[..|s| - 1] else s
  }

  /** Only the last `/` goes: a key written with a `/` after it comes back,
      and a key without one is kept. */
  lemma RemoveSlashInverse(key: string)
    ensures RemoveSlash(key + "/") == key
    ensures !EndsWith(key, "/") ==> RemoveSlash(key) == key
  {
  }

  /** File.basename: trailing `/`s ignored, and a path of only `/`s is
      `/`. */
  function PathBasename(p: string): (r: string)
    ensures NoneIn(p, {'/'}) ==> r == p
    ensures r == "/" || NoneIn(r, {'/'})
  {
    var q := StripSlashes(p);
    if q == "" && p != "" then "/" else Basename(q)
  }

  function StripSlashes(p: string): (q: string)
    ensures StartsWith(p, q) && !EndsWith(q, "/")
    ensures NoneIn(p, {'/'}) ==> q == p
  {
    if EndsWith(p, "/") then
      assert p[|p| - 1] == p[|p| - 1..][0];
      StripSlashes(p[..|p| - 1])
    else p
  }

  /** get_file_name: the key itself when it has no `/`, else its last
      path component. */
  function FileName(key: string): (r: string)
    ensures NoneIn(key, {'/'}) ==> r == key
    ensures r == "/" || NoneIn(r, {'/'})
  {
    if NoneIn(key, {'/'}) then key else PathBasename(key)
  }

  /** The file name of a key inside folders is its last component. */
  lemma FileNameInFolder(folder: string, name: string)
    requires name != "" && NoneIn(name, {'/'})
    ensures FileName(folder + "/" + name) == name
  {
    var p := folder + "/" + name;
    assert p[|folder|] == '/';
    assert !NoneIn(p, {'/'});
    assert StripSlashes(p) == p;
    BasenameAfterSlash(folder + "/", name);
  }

  const FolderMarker := "_$folder$"

  const NilIndexMessage := "undefined method `index' for nil:NilClass"

  /** is_not_folder: the path neither ends in `/` nor holds the folder
      marker, and has no `/` past the key and the separator after it.  Ruby
      takes `path[key.length + 1, ..]`, which is nil when the path is no
      longer than the key, and calling `index` on it raises. */
  function IsNotFolder(path: string, key: string): (r: Result<bool>)
    ensures r.Err? <==> !EndsWith(path, "/") && !Contains(path, FolderMarker) && |path| <= |key|
    ensures r.Ok? ==>
      (r.value <==> !EndsWith(path, "/") && !Contains(path, FolderMarker) && NoneIn(path[|key| + 1..], {'/'}))
  {
    if EndsWith(path, "/") || Contains(path, FolderMarker) then Ok(false)
    else if |key| + 1 > |path| then Err(NilIndexMessage)
    else Ok(NoneIn(path[|key| + 1..], {'/'}))
  }

  /** is_hidden_file: the name starts with `.` or `_`. */
  predicate IsHiddenFile(s: string) {
    |s| > 0 && (s[0] == '.' || s[0] == '_')
  }

  /** is_file: not a folder, and its basename is not hidden. */
  function IsFile(path: string, key: string): (r: Result<bool>)
    ensures r.Err? <==> IsNotFolder(path, key).Err?
    ensures r.Ok? ==> (r.value <==> IsNotFolder(path, key).value && !IsHiddenFile(PathBasename(path)))
  {
    var notFolder :- IsNotFolder(path, key);
    Ok(notFolder && !IsHiddenFile(PathBasename(path)))
  }

  /** Under a key, a name directly inside it is a file unless it is hidden or
      a folder marker; anything deeper, and anything ending in `/`, is not. */
  lemma FilesDirectlyUnderKey(key: string, name: string, a: string, b: string)
    requires name != "" && NoneIn(name, {'/'}) && !Contains(key + "/" + name, FolderMarker)
    ensures IsFile(key + "/" + name, key) == Ok(!IsHiddenFile(name))
    ensures IsFile(key + "/" + a + "/" + b, key) == Ok(false)
    ensures IsFile(key + "/" + a + "/", key) == Ok(false)
  {
    var p := key + "/" + name;
    assert p[|key| + 1..] == name;
    assert !EndsWith(p, "/") by { assert p[|p| - 1] == name[|name| - 1]; }
    FileNameInFolder(key, name);
    var q := key + "/" + a + "/" + b;
    assert q[|key| + 1..] == a + "/" + b && (a + "/" + b)[|a|] == '/';
    var e := key + "/" + a + "/";
    assert EndsWith(e, "/");
  }

  /** Two of the examples: a folder marker and a sub-folder are not files
      (a file directly in the folder is one, by FilesDirectlyUnderKey). */
  lemma IsFileExampleMarker()
    ensures IsFile("folder/file_$folder$", "folder") == Ok(false)
  {
    assert "folder/file_$folder$"[11..] == FolderMarker;
    ContainsAt("folder/file_$folder$", FolderMarker, 11);
  }

  lemma IsFileExampleFolder()
    ensures IsFile("folder/folder/", "folder") == Ok(false)
  {
    assert EndsWith("folder/folder/", "/");
  }

  // ---------------------------------------------------------------------
  // get_s3_objects
  // ---------------------------------------------------------------------

  /** An object of a bucket: its key and what reading it yields. */
  datatype S3Object = S3Object(key: string, content: string)

  /** The first object of the listing stored under exactly `key`. */
  function Exact(objects: seq<S3Object>, key: string): (r: Option<nat>)
    ensures r.Some? ==> r.value < |objects| && objects[r.value].key == key
    ensures r.Some? ==> forall i :: 0 <= i < r.value ==> objects[i].key != key
    ensures r.None? ==> forall i :: 0 <= i < |objects| ==> objects[i].key != key
  {
    if |objects| == 0 then None
    else if objects[0].key == key then Some(0)
    else
      var r := Exact(objects[1..], key);
      if r.Some? then Some(r.value + 1) else None
  }

  /** The objects listed under the prefix `key` that are files, in listing
      order. */
  function Listed(objects: seq<S3Object>, key: string): (r: seq<S3Object>)
    ensures |r| <= |objects|
  {
    if |objects| == 0 then []
    else
      var o := objects[|objects| - 1];
      Listed(objects[..|objects| - 1], key)
      + (if Wanted(o, key) then [o] else [])
  }

  /** An object lies under the key and is a file. */
  predicate Wanted(o: S3Object, key: string) {
    StartsWith(o.key, key) && IsFile(o.key, key) == Ok(true)
  }

  /** An object is listed exactly when it lies under the key and is a
      file. */
  lemma {:induction false} ListedMembers(objects: seq<S3Object>, key: string, o: S3Object)
    ensures o in Listed(objects, key) <==> o in objects && Wanted(o, key)
    decreases |objects|
  {
    if |objects| > 0 {
      var init := objects[..|objects| - 1];
      ListedMembers(init, key, o);
      assert objects == init + [objects[|objects| - 1]];
    }
  }

  /** Testing the objects of a listing never raises: every key under the
      prefix but not equal to it is longer than it. */
  lemma ListingIsFileDefined(o: S3Object, key: string)
    requires StartsWith(o.key, key) && o.key != key
    ensures IsFile(o.key, key).Ok?
  {
    assert o.key[..|o.key|] == o.key;
  }

  /** get_s3_objects, as a function: the object stored under the key
      without its trailing `/`, or else the files listed under it. */
  function S3Objects(objects: seq<S3Object>, key: string): (r: seq<S3Object>)
  {
    var k := RemoveSlash(key);
    var e := Exact(objects, k);
    if e.Some? then [objects[e.value]] else Listed(objects, k)
  }

  /** get_s3_objects. */
  method GetS3Objects(objects: seq<S3Object>, key: string) returns (items: seq<S3Object>)
    ensures items == S3Objects(objects, key)
  {
    var k := RemoveSlash(key);
    var e := Exact(objects, k);
    if e.Some? {
      return [objects[e.value]];
    }
    items := [];
    var i := 0;
    while i < |objects|
      invariant i <= |objects|
      invariant items == Listed(objects[..i], k)
    {
      var o := objects[i];
      assert objects[..i + 1][..i] == objects[..i];
      if StartsWith(o.key, k) {
        ListingIsFileDefined(o, k);
        var isFile := IsFile(o.key, k);
        if isFile.value {
          items := items + [o];
        }
      }
      i := i + 1;
    }
    assert objects[..i] == objects;
  }

  /** A key stored exactly gives that one object; otherwise every object
      returned lies under the key and is a file. */
  lemma S3ObjectsFound(objects: seq<S3Object>, key: string)
    ensures var k := RemoveSlash(key);
      var r := S3Objects(objects, key);
      (exists i :: 0 <= i < |objects| && objects[i].key == k) ==> |r| == 1 && r[0].key == k && r[0] in objects
    ensures var k := RemoveSlash(key);
      var r := S3Objects(objects, key);
      (forall i :: 0 <= i < |objects| ==> objects[i].key != k) ==>
        forall o :: o in r <==> o in objects && Wanted(o, k)
  {
    var k := RemoveSlash(key);
    forall o {
      ListedMembers(objects, k, o);
    }
  }

  // ---------------------------------------------------------------------
  // download_s3
  // ---------------------------------------------------------------------

  const ConcatFileName := "output"

  datatype WriteMode = Truncate | Append

  /** One call of write_s3_to_file: the object, the target and the mode. */
  datatype Write = Write(obj: S3Object, target: string, mode: WriteMode)

  function NoContentsMessage(bucket: string, key: string): string {
    "No contents were found at path s3://" + bucket + "/" + key + ".  Please specify again."
  }

  function Target(outputPath: string, o: S3Object, concat: bool): string {
    outputPath + "/" + (if concat then ConcatFileName else FileName(o.key))
  }

  /** The writes download_s3 makes, in the order of the objects. */
  function Writes(objs: seq<S3Object>, outputPath: string, concat: bool): (r: seq<Write>)
    ensures |r| == |objs|
    ensures forall i :: 0 <= i < |objs| ==>
      r[i] == Write(objs[i], Target(outputPath, objs[i], concat), if concat then Append else Truncate)
  {
    if |objs| == 0 then []
    else Writes(objs[..|objs| - 1], outputPath, concat)
         + [Write(objs[|objs| - 1], Target(outputPath, objs[|objs| - 1], concat), if concat then Append else Truncate)]
  }

  /** The local files after a write: `w+` replaces the file, `a` appends to
      it (creating it when missing). */
  function Wrote(files: map<string, string>, w: Write): (f: map<string, string>)
    ensures f.Keys == files.Keys + {w.target}
    ensures forall t :: t in files && t != w.target ==> f[t] == files[t]
  {
    Written(files, w.target, w.obj.content, w.mode == Append)
  }

  function WroteAll(files: map<string, string>, ws: seq<Write>): (f: map<string, string>)
    ensures forall t :: t in files && (forall i :: 0 <= i < |ws| ==> ws[i].target != t) ==> t in f && f[t] == files[t]
  {
    if |ws| == 0 then files else Wrote(WroteAll(files, ws[..|ws| - 1]), ws[|ws| - 1])
  }

  /** The result of a download and the local files after it. */
  datatype Downloaded = Downloaded(res: Result<seq<Write>>, files: map<string, string>)

  /** download_s3, as a function of the objects found. */
  function Download(files: map<string, string>, objs: seq<S3Object>, bucket: string, key: string,
                    outputPath: string, concat: bool): Downloaded
  {
    var start := if concat then files - {outputPath + "/" + ConcatFileName} else files;
    if |objs| == 0 then Downloaded(Err(NoContentsMessage(bucket, key)), start)
    else
      var ws := Writes(objs, outputPath, concat);
      Downloaded(Ok(ws), WroteAll(start, ws))
  }

  /** download_s3: find the objects, then write each of them in turn. */
  method DownloadS3(disk: FileTree, objects: seq<S3Object>, bucket: string, key: string, outputPath: string,
                    concat: bool)
    returns (res: Result<seq<Write>>)
    modifies disk
    ensures Downloaded(res, disk.files)
         == Download(old(disk.files), S3Objects(objects, key), bucket, key, outputPath, concat)
    ensures disk.dirs == old(disk.dirs)
  {
    var objs := GetS3Objects(objects, key);
    if concat {
      disk.RemoveFile(outputPath + "/" + ConcatFileName);
    }
    if |objs| == 0 {
      return Err(NoContentsMessage(bucket, key));
    }
    ghost var start := disk.files;
    var writes: seq<Write> := [];
    var i := 0;
    while i < |objs|
      invariant i <= |objs|
      invariant writes == Writes(objs[..i], outputPath, concat)
      invariant disk.files == WroteAll(start, writes)
      invariant disk.dirs == old(disk.dirs)
    {
      assert objs[..i + 1][..i] == objs[..i];
      var w := Write(objs[i], Target(outputPath, objs[i], concat), if concat then Append else Truncate);
      disk.Write(w.target, w.obj.content, concat);
      writes := writes + [w];
      i := i + 1;
    }
    assert objs[..i] == objs;
    return Ok(writes);
  }

  /** Concatenating: the one output file holds every object's content, in
      order, and nothing of what it held before. */
  lemma ConcatOutput(files: map<string, string>, objs: seq<S3Object>, bucket: string, key: string, outputPath: string)
    requires |objs| > 0
    ensures var d := Download(files, objs, bucket, key, outputPath, true);
      var t := outputPath + "/" + ConcatFileName;
      && d.res.Ok?
      && d.files.Keys == (files.Keys - {t}) + {t}
      && d.files[t] == Contents(objs)
  {
    var t := outputPath + "/" + ConcatFileName;
    ConcatWrites(files - {t}, Writes(objs, outputPath, true), objs, t);
  }

  function Contents(objs: seq<S3Object>): string {
    if |objs| == 0 then "" else Contents(objs[..|objs| - 1]) + objs[|objs| - 1].content
  }

  lemma {:induction false} ConcatWrites(start: map<string, string>, ws: seq<Write>, objs: seq<S3Object>, t: string)
    requires |ws| == |objs| && t !in start
    requires forall i :: 0 <= i < |ws| ==> ws[i] == Write(objs[i], t, Append)
    ensures WroteAll(start, ws).Keys == start.Keys + (if |ws| == 0 then {} else {t})
    ensures |ws| > 0 ==> WroteAll(start, ws)[t] == Contents(objs)
  {
    if |ws| > 0 {
      var n := |ws| - 1;
      var ws', objs' := ws[..n], objs[..n];
      assert forall i :: 0 <= i < n ==> ws'[i] == ws[i] && objs'[i] == objs[i];
      ConcatWrites(start, ws', objs', t);
      var prev := WroteAll(start, ws');
      assert ws[n] == Write(objs[n], t, Append);
      assert WroteAll(start, ws) == Written(prev, t, objs[n].content, true);
      assert Contents(objs) == Contents(objs') + objs[n].content;
    }
  }

  /** Writing one file per object: each object's content lands in the file
      named after it unless a later object has the same file name, and no
      file whose name no object takes is touched. */
  lemma SeparateOutputs(files: map<string, string>, objs: seq<S3Object>, bucket: string, key: string,
                        outputPath: string, i: nat)
    requires i < |objs|
    requires forall j :: i < j < |objs| ==> FileName(objs[j].key) != FileName(objs[i].key)
    ensures var d := Download(files, objs, bucket, key, outputPath, false);
      var t := outputPath + "/" + FileName(objs[i].key);
      d.res.Ok? && t in d.files && d.files[t] == objs[i].content
  {
    var ws := Writes(objs, outputPath, false);
    assert Download(files, objs, bucket, key, outputPath, false).files == WroteAll(files, ws);
    var a := outputPath + "/";
    forall j | i < j < |ws|
      ensures ws[j].target != ws[i].target
    {
      var x, y := FileName(objs[i].key), FileName(objs[j].key);
      assert ws[i].target == a + x && ws[j].target == a + y;
      assert (a + x)[|a|..] == x && (a + y)[|a|..] == y;
    }
    LastWriteWins(files, ws, i);
  }

  lemma {:induction false} LastWriteWins(files: map<string, string>, ws: seq<Write>, i: nat)
    requires i < |ws| && ws[i].mode == Truncate
    requires forall j :: i < j < |ws| ==> ws[j].target != ws[i].target
    ensures ws[i].target in WroteAll(files, ws) && WroteAll(files, ws)[ws[i].target] == ws[i].obj.content
    decreases |ws|
  {
    var init := ws[..|ws| - 1];
    if i < |ws| - 1 {
      LastWriteWins(files, init, i);
    }
  }
}
