/** The decision logic every Mortar command shares (`Mortar::Command::Base`):
    Pig parameters from a parameter file and from `-p`, option defaults
    layered from the project's defaults file, the project picked from the
    working directory and its git remotes, the project-structure checks, a
    few string helpers, and the hand-over of the project's code to git
    before a job runs. */
module CommandBase {
  import opened Common
  import opened World
  import Projects
  import GitText
  import GitClient

  // ---------------------------------------------------------------------
  // pig_parameters
  // ---------------------------------------------------------------------

  /** A parameter as handed to the API, `{"name" => ..., "value" => ...}`;
      a `-p` option can leave either one nil. */
  datatype Param = Param(name: Option<string>, value: Option<string>)

  type Entries = Assoc<Option<string>, Option<string>>

  const MalformedMessage := "Parameter file is malformed"

  /** A parameter-file line that is passed over: empty once chomped, or a
      comment starting with `;` or `#`. */
  predicate Skipped(line: string) {
    var l := Chomp(line);
    l == "" || StartsWith(l, ";") || StartsWith(l, "#")
  }

  /** A line that is read but has no `=` to split at. */
  predicate Malformed(line: string) {
    !Skipped(line) && '=' !in Chomp(line)
  }

  predicate AnyMalformed(lines: seq<string>) {
    exists i :: 0 <= i < |lines| && Malformed(lines[i])
  }

  /** The name and value a read line gives: split at its first `=`. */
  function FileEntry(line: string): (e: (Option<string>, Option<string>))
    ensures e.0.Some? && '=' !in e.0.value
    ensures e.1.Some? <==> '=' in Chomp(line)
  {
    var (name, value) := SplitOnce(Chomp(line), '=');
    (Some(name), value)
  }

  /** The entries of the lines that are read, in file order. */
  function FileEntries(lines: seq<string>): (es: Entries)
    ensures |es| <= |lines|
    decreases |lines|
  {
    if |lines| == 0 then []
    else
      var init := FileEntries(lines[..|lines| - 1]);
      var l := lines[|lines| - 1];
      if Skipped(l) then init else init + [FileEntry(l)]
  }

  /** The images under `f` of the elements `skip` does not pass over, in
      order: the shape of the parameter-file loop. */
  function FilterMap<T, U>(xs: seq<T>, skip: T -> bool, f: T -> U): seq<U>
    decreases |xs|
  {
    if |xs| == 0 then []
    else
      var init := FilterMap(xs[..|xs| - 1], skip, f);
      if skip(xs[|xs| - 1]) then init else init + [f(xs[|xs| - 1])]
  }

  lemma {:induction false} FileEntriesFilter(lines: seq<string>)
    ensures FileEntries(lines) == FilterMap(lines, Skipped, FileEntry)
    decreases |lines|
  {
    if |lines| > 0 {
      FileEntriesFilter(lines[..|lines| - 1]);
    }
  }

  lemma {:induction false} FilterMapCount<T, U>(xs: seq<T>, skip: T -> bool, f: T -> U)
    ensures |FilterMap(xs, skip, f)| <= |xs|
    ensures |FilterMap(xs, skip, f)| == |xs| <==> forall i :: 0 <= i < |xs| ==> !skip(xs[i])
    decreases |xs|
  {
    if |xs| > 0 {
      var front := xs[..|xs| - 1];
      FilterMapCount(front, skip, f);
      assert forall i :: 0 <= i < |front| ==> front[i] == xs[i];
    }
  }

  lemma {:induction false} FilterMapComplete<T, U>(xs: seq<T>, skip: T -> bool, f: T -> U)
    ensures forall i :: 0 <= i < |xs| && !skip(xs[i]) ==> f(xs[i]) in FilterMap(xs, skip, f)
    decreases |xs|
  {
    if |xs| > 0 {
      var front := xs[..|xs| - 1];
      FilterMapComplete(front, skip, f);
      forall i | 0 <= i < |xs| && !skip(xs[i])
        ensures f(xs[i]) in FilterMap(xs, skip, f)
      {
        if i < |front| {
          assert front[i] == xs[i];
        }
      }
    }
  }

  /** Each element of the result is the image of an element kept, and the
      elements it comes from appear in the same order. */
  lemma {:induction false} FilterMapSound<T, U>(xs: seq<T>, skip: T -> bool, f: T -> U) returns (idx: seq<nat>)
    ensures |idx| == |FilterMap(xs, skip, f)|
    ensures forall k :: 0 <= k < |idx| ==>
      idx[k] < |xs| && !skip(xs[idx[k]]) && FilterMap(xs, skip, f)[k] == f(xs[idx[k]])
    ensures forall k, m :: 0 <= k < m < |idx| ==> idx[k] < idx[m]
    decreases |xs|
  {
    if |xs| == 0 {
      idx := [];
    } else {
      var front := xs[..|xs| - 1];
      var pre := FilterMapSound(front, skip, f);
      assert forall k :: 0 <= k < |pre| ==> xs[pre[k]] == front[pre[k]];
      if skip(xs[|xs| - 1]) {
        idx := pre;
      } else {
        idx := pre + [|xs| - 1];
      }
    }
  }

  /** No line is lost only when none is skipped. */
  lemma FileEntriesCount(lines: seq<string>)
    ensures |FileEntries(lines)| == |lines| <==> forall i :: 0 <= i < |lines| ==> !Skipped(lines[i])
  {
    FileEntriesFilter(lines);
    FilterMapCount(lines, Skipped, FileEntry);
  }

  /** Every line that is read gives its entry. */
  lemma FileEntriesComplete(lines: seq<string>)
    ensures forall i :: 0 <= i < |lines| && !Skipped(lines[i]) ==> FileEntry(lines[i]) in FileEntries(lines)
  {
    FileEntriesFilter(lines);
    FilterMapComplete(lines, Skipped, FileEntry);
  }

  /** Every entry comes from a line that is read. */
  lemma FileEntriesSound(lines: seq<string>)
    ensures forall k :: 0 <= k < |FileEntries(lines)| ==>
      exists i :: 0 <= i < |lines| && !Skipped(lines[i]) && FileEntries(lines)[k] == FileEntry(lines[i])
  {
    var skip: string -> bool := Skipped;
    var entry: string -> (Option<string>, Option<string>) := FileEntry;
    FileEntriesFilter(lines);
    var idx := FilterMapSound(lines, skip, entry);
    var es := FilterMap(lines, skip, entry);
    forall k | 0 <= k < |es|
      ensures exists i :: 0 <= i < |lines| && !Skipped(lines[i]) && es[k] == FileEntry(lines[i])
    {
      var i := idx[k];
      assert skip(lines[i]) == Skipped(lines[i]) && entry(lines[i]) == FileEntry(lines[i]);
    }
  }

  /** The name and value a `-p NAME=VALUE` option gives, split at its first
      `=`: no value without `=`, and nothing at all for an empty option. */
  function OptionEntry(s: string): (e: (Option<string>, Option<string>))
    ensures s == "" ==> e == (None, None)
    ensures s != "" ==> e.0.Some? && '=' !in e.0.value && (e.1.Some? <==> '=' in s)
    ensures e.1.None? && s != "" ==> e.0.value == s
  {
    if s == "" then (None, None)
    else
      var (name, value) := SplitOnce(s, '=');
      (Some(name), value)
  }

  /** Both splits are at the first `=`: the name has none, and the name, `=`
      and the value make up the line again. */
  lemma EntriesSplitAtFirst(line: string, option: string)
    ensures var e := FileEntry(line);
      e.1.Some? ==> Chomp(line) == e.0.value + "=" + e.1.value
    ensures var e := OptionEntry(option);
      e.1.Some? ==> option == e.0.value + "=" + e.1.value && '=' !in e.0.value
  {
  }

  function OptionEntries(given: seq<string>): (es: Entries)
    ensures |es| == |given| && forall i :: 0 <= i < |given| ==> es[i] == OptionEntry(given[i])
  {
    seq(|given|, i requires 0 <= i < |given| => OptionEntry(given[i]))
  }

  function ToParams(m: Entries): (ps: seq<Param>)
    ensures |ps| == |m| && forall i :: 0 <= i < |m| ==> ps[i] == Param(m[i].0, m[i].1)
  {
    seq(|m|, i requires 0 <= i < |m| => Param(m[i].0, m[i].1))
  }

  /** The file's parameters merged with the options' (`Hash#merge`). */
  function Merged(fileLines: seq<string>, given: seq<string>): Entries {
    PutAll(PutAll([], FileEntries(fileLines)), PutAll([], OptionEntries(given)))
  }

  /** `Array(options[:parameter])` once the option is set, the texts the
      `-p` loop splits: nothing for an unset or false option, a list as it
      is, one text alone.  `true` or a number becomes a one-element list
      whose element has no `split`, so the loop raises. */
  function InputParameters(option: Option<Value>): (r: Result<seq<string>>)
    ensures option.None? || option == Some(Bool(false)) ==> r == Ok([])
    ensures option.Some? && option.value.Strs? ==> r == Ok(option.value.ss)
    ensures option.Some? && option.value.Str? ==> r == Ok([option.value.s])
    ensures r.Err? <==> option == Some(Bool(true)) || (option.Some? && option.value.Int?)
    ensures option == Some(Bool(true)) ==> r == Err(NoSplitMessage("true:TrueClass"))
  {
    match option
    case None => Ok([])
    case Some(v) =>
      match v
      case Bool(b) => if b then Err(NoSplitMessage("true:TrueClass")) else Ok([])
      case Strs(ss) => Ok(ss)
      case Str(s) => Ok([s])
      case Int(n) => Err(NoSplitMessage(NatToString(n) + ":Integer"))
  }

  function NoSplitMessage(receiver: string): string {
    "undefined method `split' for " + receiver
  }

  /** pig_parameters: the lines of the parameter file (when one is given)
      and the `-p` option's value, as one parameter per name.  A malformed
      file is reported before the option is looked at. */
  method PigParameters(paramFile: Option<seq<string>>, option: Option<Value>) returns (res: Result<seq<Param>>)
    ensures res.Err? <==> (paramFile.Some? && AnyMalformed(paramFile.value)) || InputParameters(option).Err?
    ensures paramFile.Some? && AnyMalformed(paramFile.value) ==> res == Err(MalformedMessage)
    ensures !(paramFile.Some? && AnyMalformed(paramFile.value)) && InputParameters(option).Err? ==>
      res == Err(InputParameters(option).msg)
    ensures res.Ok? ==> res.value == ToParams(Merged(if paramFile.Some? then paramFile.value else [], InputParameters(option).value))
  {
    var fileParams: Entries := [];
    if paramFile.Some? {
      var r := ReadParamFile(paramFile.value);
      if r.Err? {
        return Err(r.msg);
      }
      fileParams := r.value;
    }
    var input := InputParameters(option);
    if input.Err? {
      return Err(input.msg);
    }
    var given := input.value;
    var optionParams := ReadParamOptions(given);
    var merged := PutAll(fileParams, optionParams);
    var parameters := ParamList(merged);
    res := Ok(parameters);
  }

  /** The parameter file's loop: its names and values, or the error for the
      first malformed line. */
  method ReadParamFile(lines: seq<string>) returns (res: Result<Entries>)
    ensures res.Err? <==> AnyMalformed(lines)
    ensures res.Err? ==> res.msg == MalformedMessage
    ensures res.Ok? ==> res.value == PutAll([], FileEntries(lines))
  {
    var fileParams: Entries := [];
    var i := 0;
    while i < |lines|
      invariant 0 <= i <= |lines|
      invariant fileParams == PutAll([], FileEntries(lines[..i]))
      invariant !AnyMalformed(lines[..i])
    {
      FileEntriesSnoc(lines, i);
      if !Skipped(lines[i]) {
        var e := FileEntry(lines[i]);
        if e.1.None? {
          assert Malformed(lines[i]);
          return Err(MalformedMessage);
        }
        PutAllSnoc([], FileEntries(lines[..i]), e);
        fileParams := Put(fileParams, e.0, e.1);
      }
      assert !Malformed(lines[i]);
      i := i + 1;
    }
    assert lines[..i] == lines;
    res := Ok(fileParams);
  }

  /** One more line read. */
  lemma FileEntriesSnoc(lines: seq<string>, i: nat)
    requires i < |lines|
    ensures FileEntries(lines[..i + 1])
      == if Skipped(lines[i]) then FileEntries(lines[..i]) else FileEntries(lines[..i]) + [FileEntry(lines[i])]
    ensures AnyMalformed(lines[..i + 1]) <==> AnyMalformed(lines[..i]) || Malformed(lines[i])
  {
    assert lines[..i + 1][..i] == lines[..i];
    assert lines[..i + 1] == lines[..i] + [lines[i]];
    AnyMalformedSnoc(lines[..i], lines[i]);
  }

  lemma AnyMalformedSnoc(ls: seq<string>, l: string)
    ensures AnyMalformed(ls + [l]) <==> AnyMalformed(ls) || Malformed(l)
  {
    var upto := ls + [l];
    if AnyMalformed(upto) && !Malformed(l) {
      var j :| 0 <= j < |upto| && Malformed(upto[j]);
      assert ls[j] == upto[j];
    }
    if AnyMalformed(ls) {
      var j :| 0 <= j < |ls| && Malformed(ls[j]);
      assert upto[j] == ls[j];
    }
    if Malformed(l) {
      assert upto[|ls|] == l;
    }
  }

  /** The `-p` loop: each option assigned in turn. */
  method ReadParamOptions(given: seq<string>) returns (optionParams: Entries)
    ensures optionParams == PutAll([], OptionEntries(given))
  {
    optionParams := [];
    var k := 0;
    while k < |given|
      invariant 0 <= k <= |given|
      invariant optionParams == PutAll([], OptionEntries(given[..k]))
    {
      var e := OptionEntry(given[k]);
      assert OptionEntries(given[..k + 1]) == OptionEntries(given[..k]) + [e];
      PutAllSnoc([], OptionEntries(given[..k]), e);
      optionParams := Put(optionParams, e.0, e.1);
      k := k + 1;
    }
    assert given[..k] == given;
  }

  /** The merged hash's entries as parameters, in its order. */
  method ParamList(merged: Entries) returns (parameters: seq<Param>)
    ensures parameters == ToParams(merged)
  {
    parameters := [];
    var j := 0;
    while j < |merged|
      invariant 0 <= j <= |merged|
      invariant parameters == ToParams(merged[..j])
    {
      parameters := parameters + [Param(merged[j].0, merged[j].1)];
      j := j + 1;
    }
    assert merged[..j] == merged;
  }

  /** What the parameters mean: one entry per name; the file's names come
      first, in the order they first appear; a name holds its last `-p`
      value when some `-p` option gives it, and its last file value
      otherwise. */
  lemma ParametersMeaning(fileLines: seq<string>, given: seq<string>, k: Option<string>)
    ensures var m := Merged(fileLines, given);
      var fe := FileEntries(fileLines);
      var oe := OptionEntries(given);
      DistinctKeys(m)
      && |PutAll([], fe)| <= |m| && Keys(m)[..|PutAll([], fe)|] == Keys(PutAll([], fe))
      && Lookup(m, k) == (if HasKey(oe, k) then LastValue(oe, k) else LastValue(fe, k))
  {
    var fe := FileEntries(fileLines);
    var oe := OptionEntries(given);
    var fp := PutAll([], fe);
    var op := PutAll([], oe);
    PutAllKeys([], fe);
    PutAllKeys(fp, op);
    PutAllKeys([], oe);
    PutAllLookup(fp, op, k);
    PutAllLookup([], fe, k);
    PutAllLookup([], oe, k);
    PutAllHasKey([], oe, k);
    DistinctLastValue(op, k);
  }

  // ---------------------------------------------------------------------
  // Option defaults: load_defaults and load_defaults_from_file
  // ---------------------------------------------------------------------

  /** An option's value: a string from the command line or a defaults file,
      a flag, the list `-p` collects, or a number a command sets itself. */
  datatype Value = Str(s: string) | Bool(b: bool) | Strs(ss: seq<string>) | Int(n: nat)

  type Options = Assoc<string, Value>

  /** A defaults file as ParseConfig reads it: its sections by name, each a
      list of keys and their values. */
  type Config = Assoc<string, Assoc<string, string>>

  /** A value from a defaults file: only the exact words `true` and `false`
      become flags. */
  function Convert(v: string): (r: Value)
    ensures r.Bool? <==> v == "true" || v == "false"
    ensures r.Bool? ==> (r.b <==> v == "true")
    ensures !r.Bool? ==> r == Str(v)
  {
    if v == "true" then Bool(true) else if v == "false" then Bool(false) else Str(v)
  }

  /** The defaults file that is read: `project.properties` when it exists,
      else `.mortar-defaults`, else none. */
  function Chosen(properties: Option<Config>, legacy: Option<Config>): Option<Config> {
    if properties.Some? then properties else legacy
  }

  /** The entries of a section, none when the file or the section is not
      there. */
  function SectionOf(config: Option<Config>, section: string): Assoc<string, string> {
    if config.Some? && HasKey(config.value, section) then Lookup(config.value, section).value else []
  }

  /** The options a section contributes, in order: its entries whose key was
      not given on the command line, converted. */
  function Admitted(original: Options, section: Assoc<string, string>): (es: Options)
    ensures forall i :: 0 <= i < |es| ==> !HasKey(original, es[i].0)
    decreases |section|
  {
    if |section| == 0 then []
    else
      var init := Admitted(original, section[..|section| - 1]);
      var e := section[|section| - 1];
      if HasKey(original, e.0) then init else init + [(e.0, Convert(e.1))]
  }

  /** A key the section gives and the command line does not is admitted with
      the section's last value for it, converted; no other key is. */
  lemma {:induction false} AdmittedLookup(original: Options, section: Assoc<string, string>, k: string)
    ensures HasKey(Admitted(original, section), k) <==> HasKey(section, k) && !HasKey(original, k)
    ensures HasKey(Admitted(original, section), k) ==>
      LastValue(Admitted(original, section), k) == Some(Convert(LastValue(section, k).value))
    decreases |section|
  {
    if |section| > 0 {
      var init := section[..|section| - 1];
      var e := section[|section| - 1];
      assert section == init + [e];
      AdmittedLookup(original, init, k);
      LastValueSnoc(init, e, k);
      var a := Admitted(original, init);
      assert HasKey(section, k) <==> HasKey(init, k) || e.0 == k by {
        if HasKey(section, k) && e.0 != k {
          var i :| 0 <= i < |section| && section[i].0 == k;
          assert init[i].0 == k;
        }
        if HasKey(init, k) {
          var i :| 0 <= i < |init| && init[i].0 == k;
          assert section[i].0 == k;
        }
        if e.0 == k {
          assert section[|section| - 1].0 == k;
        }
      }
      if !HasKey(original, e.0) {
        LastValueSnoc(a, (e.0, Convert(e.1)), k);
        assert HasKey(a + [(e.0, Convert(e.1))], k) <==> HasKey(a, k) || e.0 == k by {
          var b := a + [(e.0, Convert(e.1))];
          if HasKey(b, k) && e.0 != k {
            var i :| 0 <= i < |b| && b[i].0 == k;
            assert a[i].0 == k;
          }
          if HasKey(a, k) {
            var i :| 0 <= i < |a| && a[i].0 == k;
            assert b[i].0 == k;
          }
          if e.0 == k {
            assert b[|b| - 1].0 == k;
          }
        }
      }
    }
  }

  /** The options after one section is layered on: a command-line key keeps
      its value; any other key the section gives takes the section's value;
      every other key keeps what it had. */
  lemma DefaultsLookup(options: Options, original: Options, section: Assoc<string, string>, k: string)
    ensures Lookup(PutAll(options, Admitted(original, section)), k)
      == if HasKey(original, k) || !HasKey(section, k) then Lookup(options, k)
         else Some(Convert(LastValue(section, k).value))
  {
    PutAllLookup(options, Admitted(original, section), k);
    AdmittedLookup(original, section, k);
  }

  /** A command starting from its command-line options gets DEFAULTS and
      then a script's section: the command line wins over both, the script's
      section over DEFAULTS. */
  lemma ScriptOverridesDefaults(original: Options, config: Option<Config>, script: string, k: string)
    ensures var d := SectionOf(config, "DEFAULTS");
      var s := SectionOf(config, script);
      var o1 := PutAll(original, Admitted(original, d));
      var o2 := PutAll(o1, Admitted(original, s));
      Lookup(o2, k)
        == if HasKey(original, k) then Lookup(original, k)
           else if HasKey(s, k) then Some(Convert(LastValue(s, k).value))
           else if HasKey(d, k) then Some(Convert(LastValue(d, k).value))
           else None
  {
    var d := SectionOf(config, "DEFAULTS");
    var s := SectionOf(config, script);
    DefaultsLookup(original, original, d, k);
    DefaultsLookup(PutAll(original, Admitted(original, d)), original, s, k);
  }

  /** A command's options: `options` is what the command line gave, as the
      defaults files fill it in, and `original` keeps the command line's own. */
  class Command {
    var options: Options
    const original: Options

    /** initialize: keep the command line, then load the DEFAULTS section. */
    constructor (options: Options, properties: Option<Config>, legacy: Option<Config>)
      ensures original == options
      ensures this.options == PutAll(options, Admitted(options, SectionOf(Chosen(properties, legacy), "DEFAULTS")))
    {
      this.options := options;
      original := options;
      new;
      LoadDefaults("DEFAULTS", properties, legacy);
    }

    /** load_defaults: read the section from `project.properties` when that
        exists, else from `.mortar-defaults`. */
    method LoadDefaults(section: string, properties: Option<Config>, legacy: Option<Config>)
      modifies this`options
      ensures options == PutAll(old(options), Admitted(original, SectionOf(Chosen(properties, legacy), section)))
    {
      if properties.Some? {
        LoadDefaultsFromFile(properties.value, section);
      } else if legacy.Some? {
        LoadDefaultsFromFile(legacy.value, section);
      }
    }

    /** load_defaults_from_file: every entry of the section whose key the
        command line did not give is set, `true`/`false` as flags. */
    method LoadDefaultsFromFile(config: Config, section: string)
      modifies this`options
      ensures options == PutAll(old(options), Admitted(original, SectionOf(Some(config), section)))
    {
      if HasKey(config, section) {
        var entries := Lookup(config, section).value;
        var i := 0;
        while i < |entries|
          invariant 0 <= i <= |entries|
          invariant options == PutAll(old(options), Admitted(original, entries[..i]))
        {
          assert entries[..i + 1][..i] == entries[..i];
          var (k, v) := entries[i];
          if !HasKey(original, k) {
            var value := if v == "true" then Bool(true) else if v == "false" then Bool(false) else Str(v);
            ghost var es := Admitted(original, entries[..i]) + [(k, value)];
            assert es[..|es| - 1] == Admitted(original, entries[..i]);
            options := Put(options, k, value);
          }
          i := i + 1;
        }
        assert entries[..i] == entries;
      }
    }
  }

  // ---------------------------------------------------------------------
  // extract_project_in_dir
  // ---------------------------------------------------------------------

  const MultipleProjectsMessage :=
    "Multiple projects in folder and no project specified.\n"
    + "Specify which project to use with --project <project name>"

  /** The first remote whose project is `name` (`Hash#find`). */
  function RemoteOfProject(remotes: Assoc<string, string>, name: string): (r: Option<string>)
    ensures r.Some? <==> exists i :: 0 <= i < |remotes| && remotes[i].1 == name
    ensures r.Some? ==> exists i :: 0 <= i < |remotes| && remotes[i] == (r.value, name)
  {
    if |remotes| == 0 then None
    else if remotes[0].1 == name then Some(remotes[0].0)
    else
      var r := RemoteOfProject(remotes[1..], name);
      assert forall i :: 1 <= i < |remotes| ==> remotes[i] == remotes[1..][i - 1];
      r
  }

  /** All the remotes name one project (`remotes.values.uniq.size == 1`). */
  predicate OneProject(remotes: Assoc<string, string>) {
    |remotes| > 0 && forall i :: 0 <= i < |remotes| ==> remotes[i].1 == remotes[0].1
  }

  /** extract_project_in_dir: the project name and remote name the folder's
      git remotes give, none without `.git` or without Mortar remotes.  The
      `--remote` option comes first, then `git config mortar.remote` (empty
      when unset), then the project name asked for, then the one project all
      remotes share, then the remote called `mortar`.  The remote found for
      a project name is that remote's whole name. */
  function ExtractProjectInDir(hasDotGit: bool, remotes: Assoc<string, string>, remoteOption: Option<string>,
                               configRemote: string, projectName: Option<string>)
    : (r: Result<Option<(Option<string>, Option<string>)>>)
    ensures !hasDotGit || |remotes| == 0 ==> r == Ok(None)
    ensures r.Err? <==>
      hasDotGit && |remotes| > 0 && remoteOption.None? && configRemote == "" && projectName.None?
      && !OneProject(remotes) && !HasKey(remotes, GitClient.MortarRemote)
    ensures r.Err? ==> r.msg == MultipleProjectsMessage
    ensures hasDotGit && |remotes| > 0 && r.Ok? ==> r.value.Some?
  {
    if !hasDotGit || |remotes| == 0 then Ok(None)
    else if remoteOption.Some? then Ok(Some((Lookup(remotes, remoteOption.value), remoteOption)))
    else if configRemote != "" then Ok(Some((Lookup(remotes, configRemote), Some(configRemote))))
    else if projectName.Some? then Ok(Some((projectName, RemoteOfProject(remotes, projectName.value))))
    else if OneProject(remotes) then Ok(Some((Some(remotes[0].1), Some(remotes[0].0))))
    else if HasKey(remotes, GitClient.MortarRemote) then
      Ok(Some((Lookup(remotes, GitClient.MortarRemote), Some(GitClient.MortarRemote))))
    else Err(MultipleProjectsMessage)
  }

  /** Whenever a remote is found by project, by the one shared project or
      as `mortar`, the project is the one that remote names; a remote asked
      for by option or git config names its project when it is one of the
      remotes, and no project otherwise.  (`git remote -v` gives each remote
      once.) */
  lemma ExtractedRemoteNamesProject(hasDotGit: bool, remotes: Assoc<string, string>, remoteOption: Option<string>,
                                    configRemote: string, projectName: Option<string>)
    requires DistinctKeys(remotes)
    requires ExtractProjectInDir(hasDotGit, remotes, remoteOption, configRemote, projectName).Ok?
    ensures var r := ExtractProjectInDir(hasDotGit, remotes, remoteOption, configRemote, projectName).value;
      r.Some? && r.value.1.Some? ==> r.value.0 == Lookup(remotes, r.value.1.value)
  {
    var r := ExtractProjectInDir(hasDotGit, remotes, remoteOption, configRemote, projectName).value;
    if r.Some? && r.value.1.Some? && hasDotGit && |remotes| > 0 && remoteOption.None? && configRemote == "" {
      var k := r.value.1.value;
      if projectName.Some? {
        var n := projectName.value;
        var i :| 0 <= i < |remotes| && remotes[i] == (k, n);
        var v := Lookup(remotes, k).value;
        var j :| 0 <= j < |remotes| && remotes[j] == (k, v);
        assert i == j;
      }
    }
  }

  /** What a project name asked for gives when no remote is named by option
      or git config: that project, with the first remote that names it, and
      with no remote exactly when none does. */
  lemma ExtractByName(remotes: Assoc<string, string>, name: string)
    requires |remotes| > 0
    ensures var r := ExtractProjectInDir(true, remotes, None, "", Some(name));
      r.Ok? && r.value.Some? && r.value.value.0 == Some(name)
      && (r.value.value.1.None? <==> forall i :: 0 <= i < |remotes| ==> remotes[i].1 != name)
      && (r.value.value.1.Some? ==> exists i :: 0 <= i < |remotes| && remotes[i] == (r.value.value.1.value, name))
  {
  }

  /** extract_project_in_dir as written: for a project name it answers
      `project_remote.first[0]`, the first character of the remote's name
      (nil for an empty name), instead of the name. */
  function ExtractProjectInDirAsWritten(hasDotGit: bool, remotes: Assoc<string, string>, remoteOption: Option<string>,
                                        configRemote: string, projectName: Option<string>)
    : (r: Result<Option<(Option<string>, Option<string>)>>)
    ensures r != ExtractProjectInDir(hasDotGit, remotes, remoteOption, configRemote, projectName) ==>
      hasDotGit && |remotes| > 0 && remoteOption.None? && configRemote == "" && projectName.Some?
      && RemoteOfProject(remotes, projectName.value).Some?
  {
    if hasDotGit && |remotes| > 0 && remoteOption.None? && configRemote == "" && projectName.Some? then
      var found := RemoteOfProject(remotes, projectName.value);
      Ok(Some((projectName, if found.Some? && found.value != "" then Some([found.value[0]]) else None)))
    else ExtractProjectInDir(hasDotGit, remotes, remoteOption, configRemote, projectName)
  }

  /** The code as written answers the remote `m` for a project whose remote
      is `mortar`: no remote of that name exists, and the project name does
      not match it. */
  lemma AsWrittenAbbreviatesRemote()
    ensures var remotes := [("mortar", "myproject")];
      ExtractProjectInDirAsWritten(true, remotes, None, "", Some("myproject")) == Ok(Some((Some("myproject"), Some("m"))))
      && Lookup(remotes, "m") == None
      && ExtractProjectInDir(true, remotes, None, "", Some("myproject")) == Ok(Some((Some("myproject"), Some("mortar"))))
  {
    var remotes := [("mortar", "myproject")];
    assert RemoteOfProject(remotes, "myproject") == Some("mortar");
    assert Lookup(remotes[1..], "m") == None;
  }

  // ---------------------------------------------------------------------
  // Project structure
  // ---------------------------------------------------------------------

  /** A directory `d` at the top of the working directory, as the globs of
      the working directory's directories list it. */
  predicate HasDir(fs: FileSystem, d: string) {
    [d] in fs && fs[[d]].Dir?
  }

  /** validate_project_structure checks the directories in this order. */
  const CheckedDirectories: seq<string> := ["pigscripts", "macros", "udfs"]

  const MissingDirectoriesPrefix := "Project missing required directories: "

  /** `required - present`: the required directories that are missing, in
      the order given. */
  function MissingDirectories(fs: FileSystem, required: seq<string>): (ms: seq<string>)
    ensures |ms| <= |required|
    ensures forall d :: d in ms <==> d in required && !HasDir(fs, d)
  {
    if |required| == 0 then []
    else
      var rest := MissingDirectories(fs, required[1..]);
      if HasDir(fs, required[0]) then rest else [required[0]] + rest
  }

  /** validate_project_structure: an error naming the missing directories. */
  function ValidateProjectStructure(fs: FileSystem): (r: Result<()>)
    ensures r.Err? <==> exists d :: d in CheckedDirectories && !HasDir(fs, d)
    ensures r.Err? ==> r.msg == MissingDirectoriesPrefix + Inspect(MissingDirectories(fs, CheckedDirectories))
  {
    var missing := MissingDirectories(fs, CheckedDirectories);
    if |missing| > 0 then
      assert missing[0] in missing;
      Err(MissingDirectoriesPrefix + Inspect(missing))
    else Ok(())
  }

  /** The first required directory that is missing (`Array#find`). */
  function FirstMissingDirectory(fs: FileSystem, required: seq<string>): (r: Option<string>)
    ensures r.None? <==> forall d :: d in required ==> HasDir(fs, d)
    ensures r.Some? ==> r.value in required && !HasDir(fs, r.value)
  {
    if |required| == 0 then None
    else if !HasDir(fs, required[0]) then Some(required[0])
    else FirstMissingDirectory(fs, required[1..])
  }

  /** extract_project_in_dir_no_git: a folder holding all the required
      directories is a project named after the folder, with no remote. */
  function ExtractProjectInDirNoGit(fs: FileSystem, cwd: string): (r: Option<(string, Option<string>)>)
    ensures r.Some? <==> forall d :: d in Projects.RequiredDirectories ==> HasDir(fs, d)
    ensures r.Some? ==> r.value == (Basename(cwd), None)
  {
    if FirstMissingDirectory(fs, Projects.RequiredDirectories).Some? then None else Some((Basename(cwd), None))
  }

  /** The two checks agree: the structure is valid exactly when a folder
      without git is taken for a project. */
  lemma StructureChecksAgree(fs: FileSystem, cwd: string)
    ensures ValidateProjectStructure(fs).Ok? <==> ExtractProjectInDirNoGit(fs, cwd).Some?
  {
    assert forall d :: d in CheckedDirectories <==> d in Projects.RequiredDirectories;
  }

  // ---------------------------------------------------------------------
  // String helpers
  // ---------------------------------------------------------------------

  const UndefinedParameter := "Undefined parameter"
  const ParameterHint := "Use -p, --parameter NAME=VALUE to set parameter NAME to value VALUE."

  /** get_error_message_context: a hint about `-p` for a job that failed on
      an undefined parameter, nothing otherwise. */
  function ErrorMessageContext(message: string): (r: string)
    ensures r != "" <==> StartsWith(message, UndefinedParameter)
    ensures r != "" ==> r == ParameterHint
  {
    if StartsWith(message, UndefinedParameter) then ParameterHint else ""
  }

  const JdbcScheme := "jdbc:"
  const JdbcSeparator := "://"
  const JdbcOptions := "?zeroDateTimeBehavior=convertToNull"

  /** jdbc_conn */
  function JdbcConn(dbType: string, host: string, dbName: string): (r: string)
    ensures StartsWith(r, JdbcScheme) && EndsWith(r, JdbcOptions)
  {
    JdbcScheme + dbType + JdbcSeparator + host + "/" + dbName + JdbcOptions
  }

  /** A connection string names one database: a type without `:` and a host
      without `/` are read back from it. */
  lemma JdbcConnInjective(t1: string, h1: string, d1: string, t2: string, h2: string, d2: string)
    requires NoneIn(t1, {':'}) && NoneIn(t2, {':'}) && NoneIn(h1, {'/'}) && NoneIn(h2, {'/'})
    requires JdbcConn(t1, h1, d1) == JdbcConn(t2, h2, d2)
    ensures t1 == t2 && h1 == h2 && d1 == d2
  {
    PartsInjective(JdbcScheme, JdbcOptions, t1, h1, d1, t2, h2, d2);
  }

  lemma PartsInjective(pre: string, post: string, t1: string, h1: string, d1: string, t2: string, h2: string, d2: string)
    requires NoneIn(t1, {':'}) && NoneIn(t2, {':'}) && NoneIn(h1, {'/'}) && NoneIn(h2, {'/'})
    requires pre + t1 + JdbcSeparator + h1 + "/" + d1 + post == pre + t2 + JdbcSeparator + h2 + "/" + d2 + post
    ensures t1 == t2 && h1 == h2 && d1 == d2
  {
    var b1, b2 := h1 + ['/'] + (d1 + post), h2 + ['/'] + (d2 + post);
    var a1, a2 := t1 + [':'] + ("//" + b1), t2 + [':'] + ("//" + b2);
    assert pre + t1 + JdbcSeparator + h1 + "/" + d1 + post == pre + a1;
    assert pre + t2 + JdbcSeparator + h2 + "/" + d2 + post == pre + a2;
    assert a1 == (pre + a1)[|pre|..] && a2 == (pre + a2)[|pre|..];
    SplitFirst(t1, t2, ':', "//" + b1, "//" + b2);
    assert b1 == ("//" + b1)[2..] && b2 == ("//" + b2)[2..];
    SplitFirst(h1, h2, '/', d1 + post, d2 + post);
    assert d1 == (d1 + post)[..|d1|] && d2 == (d2 + post)[..|d2|];
  }

  /** What comes before the first `c` and what follows it are read back. */
  lemma SplitFirst(p1: string, p2: string, c: char, r1: string, r2: string)
    requires NoneIn(p1, {c}) && NoneIn(p2, {c})
    requires p1 + [c] + r1 == p2 + [c] + r2
    ensures p1 == p2 && r1 == r2
  {
    var s := p1 + [c] + r1;
    assert s[..|p1|] == p1 && s[|p1| + 1..] == r1;
    GitText.FindCharAt(s, c, |p1|);
    assert s[..|p2|] == p2 && s[|p2| + 1..] == r2;
    GitText.FindCharAt(s, c, |p2|);
  }

  /** git_organization: MORTAR_ORGANIZATION when set, else `mortarcode`. */
  function GitOrganization(env: Option<string>): string {
    if env.Some? then env.value else "mortarcode"
  }

  /** embedded_project_user_branch */
  function EmbeddedUserBranch(userS3Safe: string): string {
    userS3Safe + "-base"
  }

  // ---------------------------------------------------------------------
  // project and sync_code_with_cloud
  // ---------------------------------------------------------------------

  const NoProjectMessage := "No project found.\nThis command must be run from within a project folder."

  /** extract_project_in_dir on the working directory: without `.git` there
      is nothing to read; otherwise `git remote -v` must succeed. */
  function ExtractProjectIn(installed: bool, ws: Workspace, org: string, remoteOption: Option<string>,
                            configRemote: string, projectName: Option<string>)
    : (r: Result<Option<(Option<string>, Option<string>)>>)
    ensures ws.git.NoGitDir? ==> r == Ok(None)
    ensures ws.git.GitRepo? && installed ==>
      r == ExtractProjectInDir(true, GitText.Remotes(RemoteListing(ws.git.repo.remotes), org),
                               remoteOption, configRemote, projectName)
  {
    if ws.git.NoGitDir? then Ok(None)
    else
      match GitClient.RepoOf(installed, ws.git, "remote -v")
      case Err(e) => Err(e)
      case Ok(repo) =>
        ExtractProjectInDir(true, GitText.Remotes(RemoteListing(repo.remotes), org),
                            remoteOption, configRemote, projectName)
  }

  function NameOf(found: Option<(Option<string>, Option<string>)>, noGit: Option<(string, Option<string>)>)
    : Option<string>
  {
    if found.Some? then found.value.0 else if noGit.Some? then Some(noGit.value.0) else None
  }

  /** project, before the fork check: the project git's remotes give, else
      a folder with the required directories, named after it; a project
      found without a remote looks for one by name. */
  function LocateProject(installed: bool, ws: Workspace, cwd: string, org: string,
                         remoteOption: Option<string>, configRemote: string)
    : (r: Result<Projects.Project>)
    ensures r.Ok? ==> r.value.rootPath == Some(cwd)
    ensures ws.git.NoGitDir? ==> (r.Ok? <==> ExtractProjectInDirNoGit(ws.files, cwd).Some?)
    ensures ws.git.NoGitDir? && r.Ok? ==> r.value == Projects.Project(Some(Basename(cwd)), Some(cwd), None)
    ensures r.Ok? && r.value.remote.Some? ==>
      var first := ExtractProjectIn(installed, ws, org, remoteOption, configRemote, None);
      first.Ok? && first.value.Some? && r.value.remote == first.value.value.1
    ensures r.Err? ==> r.msg == NoProjectMessage || ExtractProjectIn(installed, ws, org, remoteOption, configRemote, None).Err?
  {
    match ExtractProjectIn(installed, ws, org, remoteOption, configRemote, None)
    case Err(e) => Err(e)
    case Ok(found) =>
      var noGit := ExtractProjectInDirNoGit(ws.files, cwd);
      if found.None? && noGit.None? then Err(NoProjectMessage)
      else
        var name := NameOf(found, noGit);
        var remote := if found.Some? then found.value.1 else None;
        match (if remote.Some? then Ok(None) else ExtractProjectIn(installed, ws, org, remoteOption, configRemote, name))
        case Err(e) => Err(e)
        case Ok(again) =>
          var remote' := if again.Some? then again.value.1 else remote;
          Ok(Projects.Project(name, Some(cwd), remote'))
  }

  /** project: the project as LocateProject finds it; then the fork check
      runs and whatever it raises is ignored.  Answers the project, the
      folder after the fork check, and whether the fork warning is shown. */
  function ResolveProject(installed: bool, servers: Servers, ws: Workspace, cwd: string, org: string,
                          remoteOption: Option<string>, configRemote: string)
    : (r: Result<(Projects.Project, Workspace, bool)>)
    ensures var l := LocateProject(installed, ws, cwd, org, remoteOption, configRemote);
      (r.Ok? <==> l.Ok?) && (r.Err? ==> r.msg == l.msg) && (r.Ok? ==> r.value.0 == l.value)
    ensures r.Ok? ==>
      var f := GitClient.ForkUpdated(installed, servers, ws, org);
      r.value.1 == (if f.Ok? then f.value.0 else ws) && (r.value.2 <==> f.Ok? && f.value.1)
  {
    var p :- LocateProject(installed, ws, cwd, org, remoteOption, configRemote);
    var f := GitClient.ForkUpdated(installed, servers, ws, org);
    var after := if f.Ok? then f.value.0 else ws;
    Ok((p, after, f.Ok? && f.value.1))
  }

  /** The second look for a remote never finds one: a project without a
      remote from the first look was found without `.git` or without Mortar
      remotes, and the second look sees the same folder. */
  lemma SecondLookFindsNothing(installed: bool, ws: Workspace, org: string, remoteOption: Option<string>,
                               configRemote: string, name: Option<string>)
    requires ExtractProjectIn(installed, ws, org, remoteOption, configRemote, None) == Ok(None)
    ensures ExtractProjectIn(installed, ws, org, remoteOption, configRemote, name) == Ok(None)
  {
  }

  const CheckedOutSuffix := " must be run from the checked-out project directory"
  const MissingRemotePrefix := "Unable to find git remote for project "
  const MissingRemoteSuffix :=
    ".\n\nDo 'mortar projects -h' for help creating a new Mortar "
    + "project or linking to an existing Mortar project."

  /** Ruby's `"#{name}"`: nil interpolates as nothing. */
  function Shown(name: Option<string>): string {
    if name.Some? then name.value else ""
  }

  /** validate_git_based_project!: the project has a folder and a remote. */
  function ValidateGitBasedProject(p: Projects.Project, command: string): (r: Result<string>)
    ensures r.Ok? <==> p.rootPath.Some? && p.remote.Some?
    ensures r.Ok? ==> r.value == p.remote.value
    ensures p.rootPath.None? ==> r == Err(command + CheckedOutSuffix)
    ensures p.rootPath.Some? && p.remote.None? ==> r == Err(MissingRemotePrefix + Shown(p.name) + MissingRemoteSuffix)
  {
    if p.rootPath.None? then Err(command + CheckedOutSuffix)
    else if p.remote.None? then Err(MissingRemotePrefix + Shown(p.name) + MissingRemoteSuffix)
    else Ok(p.remote.value)
  }

  /** sync_code_with_cloud: an embedded project is synced through its mirror
      on the user's base branch; any other project is validated and a
      snapshot branch is pushed to its remote.  Answers the commit hash the
      job runs. */
  method SyncCodeWithCloud(g: GitClient.Git, p: Projects.Project, ws: Workspace, mirror: Workspace,
                           userS3Safe: string, org: string, command: string,
                           setupId: string, syncId: string, uuid: string, commitId: string)
    returns (res: Result<string>)
    requires g.Valid()
    requires Projects.Embedded(ws.files) ==> !ws.git.GitRepo?
    modifies g
    ensures g.Valid()
    ensures Projects.Embedded(ws.files) && res.Ok? ==>
      |g.pushed| >= |old(g.pushed)| + 2
      && g.pushed[|g.pushed| - 2..] == [GitClient.Push(GitClient.MortarRemote, EmbeddedUserBranch(userS3Safe)),
                                        GitClient.Push(GitClient.MortarRemote, GitClient.SnapshotBranch(uuid))]
    ensures !Projects.Embedded(ws.files) && ValidateGitBasedProject(p, command).Err? ==>
      res == Err(ValidateGitBasedProject(p, command).msg) && g.pushed == old(g.pushed)
    ensures !Projects.Embedded(ws.files) && res.Ok? ==>
      p.remote.Some? && g.pushed == old(g.pushed) + [GitClient.Push(p.remote.value, GitClient.SnapshotBranch(uuid))]
    ensures !Projects.Embedded(ws.files) && res.Ok? ==>
      ws.git.GitRepo? && HasKey(ws.git.repo.remotes, p.remote.value)
      && var url := Lookup(ws.git.repo.remotes, p.remote.value).value;
      url in g.servers && Lookup(g.servers[url], GitClient.SnapshotBranch(uuid)).Some?
      && Lookup(g.servers[url], GitClient.SnapshotBranch(uuid)).value.id == res.value
    ensures Projects.Embedded(ws.files) && res.Ok? && EmbeddedUserBranch(userS3Safe) != GitClient.SnapshotBranch(uuid) ==>
      exists url :: url in g.servers && Lookup(g.servers[url], GitClient.SnapshotBranch(uuid)).Some?
                    && Lookup(g.servers[url], GitClient.SnapshotBranch(uuid)).value.id == res.value
  {
    if Projects.Embedded(ws.files) {
      var s := g.SyncEmbeddedProject(ws, mirror, Shown(p.name), EmbeddedUserBranch(userS3Safe), org, setupId, syncId, uuid);
      if s.Err? {
        return Err(s.msg);
      }
      res := Ok(s.value.2);
    } else {
      var remote := ValidateGitBasedProject(p, command);
      if remote.Err? {
        return Err(remote.msg);
      }
      var s := g.CreateAndPushSnapshotBranch(ws, remote.value, uuid, commitId);
      if s.Err? {
        return Err(s.msg);
      }
      res := Ok(s.value.1);
    }
  }
}
