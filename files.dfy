/** The local file system the commands read and write: the contents of its
    files and the set of its directories, each named by its full path. */
module LocalFiles {
  import opened Common

  /** `q` is `p` itself or lies somewhere below it. */
  predicate Under(q: string, p: string) {
    q == p || StartsWith(q, p + "/")
  }

  /** The files after writing `content` to `target`: mode `w`/`w+`
      replaces the file, mode `a` appends to it; either creates it. */
  function Written(files: map<string, string>, target: string, content: string, append: bool)
    : (f: map<string, string>)
    ensures f.Keys == files.Keys + {target}
    ensures f[target] == (if append && target in files then files[target] else "") + content
    ensures forall t :: t in files && t != target ==> f[t] == files[t]
  {
    files[target := (if append && target in files then files[target] else "") + content]
  }

  class FileTree {
    var files: map<string, string>
    var dirs: set<string>

    constructor (files: map<string, string>, dirs: set<string>)
      ensures this.files == files && this.dirs == dirs
    {
      this.files := files;
      this.dirs := dirs;
    }

    /** File.open(target, mode) followed by a write. */
    method Write(target: string, content: string, append: bool)
      modifies this
      ensures files == Written(old(files), target, content, append) && dirs == old(dirs)
    {
      var before := if append && target in files then files[target] else "";
      files := files[target := before + content];
    }

    /** Removing a file when there is one (FileUtils.remove after
        File.file?). */
    method RemoveFile(path: string)
      modifies this
      ensures files == old(files) - {path} && dirs == old(dirs)
    {
      files := files - {path};
    }

    /** FileUtils.rm_rf: the path and everything below it. */
    method RemoveTree(p: string)
      modifies this
      ensures files == map t | t in old(files) && !Under(t, p) :: old(files)[t]
      ensures dirs == set d | d in old(dirs) && !Under(d, p)
    {
      files := map t | t in files && !Under(t, p) :: files[t];
      dirs := set d | d in dirs && !Under(d, p);
    }

    /** Dir.mkdir: refused when something already has the name. */
    method MakeDir(p: string) returns (res: Result<()>)
      modifies this
      ensures res.Err? <==> p in old(files) || p in old(dirs)
      ensures res.Err? ==> res.msg == ExistsMessage(p) && dirs == old(dirs)
      ensures res.Ok? ==> dirs == old(dirs) + {p}
      ensures files == old(files)
    {
      if p in files || p in dirs {
        return Err(ExistsMessage(p));
      }
      dirs := dirs + {p};
      return Ok(());
    }
  }

  function ExistsMessage(p: string): string {
    "File exists @ dir_s_mkdir - " + p
  }
}
