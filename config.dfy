/** `mortar config`, `config:get` and `config:set`: a project's config
    vars, shown as a styled hash or as sorted shell assignments, read one at
    a time, and set from `KEY=VALUE` arguments. */
module ConfigCommand {
  import opened Common

  /** A config var's value as the API returns it. */
  datatype ConfigValue = CStr(s: string) | CNull | CBool(b: bool) | CInt(n: int)

  /** Integer#to_s. */
  function IntToString(n: int): (r: string)
    ensures n >= 0 ==> r == NatToString(n)
    ensures n < 0 ==> r == "-" + NatToString(-n)
  {
    if n < 0 then "-" + NatToString(-n) else NatToString(n)
  }

  /** to_s: nil prints as nothing. */
  function ToS(v: ConfigValue): string {
    match v
    case CStr(s) => s
    case CNull => ""
    case CBool(b) => if b then "true" else "false"
    case CInt(n) => IntToString(n)
  }

  // ---------------------------------------------------------------------
  // Ruby's String#<=> and Array#sort on strings
  // ---------------------------------------------------------------------

  /** `a < b`: compared character by character, a proper prefix first. */
  predicate Below(a: string, b: string)
    decreases |a|
  {
    |b| > 0 && (|a| == 0 || a[0] < b[0] || (a[0] == b[0] && Below(a[1..], b[1..])))
  }

  predicate Le(a: string, b: string) {
    a == b || Below(a, b)
  }

  lemma {:induction false} BelowTotal(a: string, b: string)
    ensures a == b || Below(a, b) || Below(b, a)
    decreases |a|
  {
    if |a| > 0 && |b| > 0 && a[0] == b[0] {
      BelowTotal(a[1..], b[1..]);
      if a[1..] == b[1..] {
        assert a == [a[0]] + a[1..] && b == [b[0]] + b[1..];
      }
    }
  }

  lemma {:induction false} BelowTrans(a: string, b: string, c: string)
    requires Below(a, b) && Below(b, c)
    ensures Below(a, c)
    decreases |a|
  {
    if |a| > 0 && a[0] == b[0] && b[0] == c[0] {
      BelowTrans(a[1..], b[1..], c[1..]);
    }
  }

  lemma {:induction false} BelowIrreflexive(a: string)
    ensures !Below(a, a)
    decreases |a|
  {
    if |a| > 0 {
      BelowIrreflexive(a[1..]);
    }
  }

  lemma LeTrans(a: string, b: string, c: string)
    requires Le(a, b) && Le(b, c)
    ensures Le(a, c)
  {
    if a != b && b != c {
      BelowTrans(a, b, c);
    }
  }

  predicate Sorted(xs: seq<string>) {
    forall i, j :: 0 <= i < j < |xs| ==> Le(xs[i], xs[j])
  }

  /** `x` put into a sorted list in front of the first element not below
      it. */
  function Insert(x: string, xs: seq<string>): (r: seq<string>)
    requires Sorted(xs)
    ensures Sorted(r) && multiset(r) == multiset(xs) + multiset{x}
    decreases |xs|
  {
    if |xs| == 0 then [x]
    else if Le(x, xs[0]) then
      InsertFront(x, xs);
      [x] + xs
    else
      var rest := Insert(x, xs[1..]);
      assert xs == [xs[0]] + xs[1..];
      InsertAfter(x, xs, rest);
      [xs[0]] + rest
  }

  lemma InsertFront(x: string, xs: seq<string>)
    requires Sorted(xs) && |xs| > 0 && Le(x, xs[0])
    ensures Sorted([x] + xs)
  {
    forall j | 0 < j < |xs| + 1
      ensures Le(x, ([x] + xs)[j])
    {
      LeTrans(x, xs[0], xs[j - 1]);
    }
  }

  lemma InsertAfter(x: string, xs: seq<string>, rest: seq<string>)
    requires Sorted(xs) && |xs| > 0 && !Le(x, xs[0])
    requires Sorted(rest) && multiset(rest) == multiset(xs[1..]) + multiset{x}
    ensures Sorted([xs[0]] + rest)
  {
    BelowTotal(x, xs[0]);
    forall j | 0 <= j < |rest|
      ensures Le(xs[0], rest[j])
    {
      assert rest[j] in multiset(rest);
      if rest[j] != x {
        assert rest[j] in multiset(xs[1..]);
        var k :| 0 <= k < |xs[1..]| && xs[1..][k] == rest[j];
        assert xs[k + 1] == rest[j];
      }
    }
  }

  /** Array#sort. */
  function Sort(xs: seq<string>): (r: seq<string>)
    ensures Sorted(r) && multiset(r) == multiset(xs)
  {
    if |xs| == 0 then []
    else
      assert xs == [xs[0]] + xs[1..];
      Insert(xs[0], Sort(xs[1..]))
  }

  // ---------------------------------------------------------------------
  // config
  // ---------------------------------------------------------------------

  /** What `config` shows: lines, or a header above a styled hash. */
  datatype Shown = Lines(lines: seq<string>) | Styled(header: string, vars: Assoc<string, string>)

  function NoVarsMessage(projectName: string): string { projectName + " has no config vars." }

  /** The shell line of one var. */
  function Assignment(key: string, value: string): string { key + "=" + value }

  /** `vars.each {|key, value| vars[key] = value.to_s}`: every value turned
      into its text in place, the keys and their order kept. */
  method Stringify(vars: Assoc<string, ConfigValue>) returns (out: Assoc<string, string>)
    ensures |out| == |vars|
    ensures forall i :: 0 <= i < |vars| ==> out[i] == (vars[i].0, ToS(vars[i].1))
  {
    var done: Assoc<string, string> := [];
    var i := 0;
    while i < |vars|
      invariant i <= |vars| && |done| == i
      invariant forall j :: 0 <= j < i ==> done[j] == (vars[j].0, ToS(vars[j].1))
    {
      done := done + [(vars[i].0, ToS(vars[i].1))];
      i := i + 1;
    }
    out := done;
  }

  /** config.  With `--shell`, the vars as `KEY=value` lines in key
      order; otherwise a header above the styled hash. */
  method Index(projectName: string, vars: Assoc<string, ConfigValue>, shell: bool) returns (shown: Shown)
    ensures |vars| == 0 ==> shown == Lines([NoVarsMessage(projectName)])
    ensures |vars| > 0 && !shell ==>
      && shown.Styled? && shown.header == projectName + " Config Vars"
      && |shown.vars| == |vars|
      && forall i :: 0 <= i < |vars| ==> shown.vars[i] == (vars[i].0, ToS(vars[i].1))
    ensures |vars| > 0 && shell ==> shown == Lines(ShellLines(StringsOf(vars)))
  {
    if |vars| == 0 {
      return Lines([NoVarsMessage(projectName)]);
    }
    var strings := Stringify(vars);
    assert strings == StringsOf(vars);
    if shell {
      var keys := Sort(Keys(strings));
      var lines: seq<string> := [];
      var i := 0;
      while i < |keys|
        invariant i <= |keys| && |lines| == i
        invariant forall j :: 0 <= j < i ==>
          HasKey(strings, keys[j]) && lines[j] == Assignment(keys[j], Lookup(strings, keys[j]).value)
      {
        KeyOfSorted(strings, keys, i);
        lines := lines + [Assignment(keys[i], Lookup(strings, keys[i]).value)];
        i := i + 1;
      }
      assert lines == ShellLines(strings);
      return Lines(lines);
    }
    return Styled(projectName + " Config Vars", strings);
  }

  /** The vars with their values as text. */
  function StringsOf(vars: Assoc<string, ConfigValue>): (r: Assoc<string, string>)
    ensures |r| == |vars| && forall i :: 0 <= i < |vars| ==> r[i] == (vars[i].0, ToS(vars[i].1))
  {
    seq(|vars|, i requires 0 <= i < |vars| => (vars[i].0, ToS(vars[i].1)))
  }

  lemma KeyOfSorted(vars: Assoc<string, string>, keys: seq<string>, i: nat)
    requires keys == Sort(Keys(vars)) && i < |keys|
    ensures HasKey(vars, keys[i])
  {
    assert keys[i] in multiset(Keys(vars));
    var k :| 0 <= k < |Keys(vars)| && Keys(vars)[k] == keys[i];
    assert vars[k].0 == keys[i];
  }

  /** The `--shell` lines: each key in order with its value. */
  function ShellLines(vars: Assoc<string, string>): (lines: seq<string>)
  {
    var keys := Sort(Keys(vars));
    seq(|keys|, i requires 0 <= i < |keys| =>
      Assignment(keys[i], if HasKey(vars, keys[i]) then Lookup(vars, keys[i]).value else ""))
  }

  /** The shell lines assign every var once, in ascending key order, each
      its own value. */
  lemma ShellLinesShape(vars: Assoc<string, string>)
    ensures var keys := Sort(Keys(vars));
      var lines := ShellLines(vars);
      && Sorted(keys) && multiset(keys) == multiset(Keys(vars)) && |lines| == |vars|
      && forall i :: 0 <= i < |keys| ==>
           HasKey(vars, keys[i]) && lines[i] == Assignment(keys[i], Lookup(vars, keys[i]).value)
  {
    var keys := Sort(Keys(vars));
    assert |keys| == |Keys(vars)| by {
      assert |multiset(keys)| == |multiset(Keys(vars))|;
    }
    forall i | 0 <= i < |keys|
      ensures HasKey(vars, keys[i])
    {
      KeyOfSorted(vars, keys, i);
    }
  }

  // ---------------------------------------------------------------------
  // config:get
  // ---------------------------------------------------------------------

  const GetUsageMessage := "Usage: mortar config:get KEY\nMust specify KEY."

  function UndefinedMessage(key: string, projectName: string): string {
    "Config var " + key + " is not defined for project " + projectName + "."
  }

  /** config:get: the text of the first var named KEY. */
  function Get(key: Option<string>, projectName: string, vars: Assoc<string, ConfigValue>): (r: Result<string>)
    ensures key.None? ==> r == Err(GetUsageMessage)
    ensures key.Some? ==> (r.Ok? <==> HasKey(vars, key.value))
    ensures key.Some? && !HasKey(vars, key.value) ==> r == Err(UndefinedMessage(key.value, projectName))
    ensures r.Ok? ==> exists i :: 0 <= i < |vars| && vars[i].0 == key.value && r.value == ToS(vars[i].1)
  {
    if key.None? then Err(GetUsageMessage)
    else
      match Lookup(vars, key.value)
      case None => Err(UndefinedMessage(key.value, projectName))
      case Some(v) => Ok(ToS(v))
  }

  /** config:get shows exactly what config lists for that key. */
  lemma GetAgreesWithIndex(key: string, projectName: string, vars: Assoc<string, ConfigValue>)
    requires HasKey(vars, key)
    ensures Get(Some(key), projectName, vars) == Ok(Lookup(StringsOf(vars), key).value)
  {
    var s := StringsOf(vars);
    LookupStrings(vars, key);
  }

  lemma {:induction false} LookupStrings(vars: Assoc<string, ConfigValue>, key: string)
    ensures Lookup(StringsOf(vars), key) == if HasKey(vars, key) then Some(ToS(Lookup(vars, key).value)) else None
    decreases |vars|
  {
    if |vars| > 0 && vars[0].0 != key {
      LookupStrings(vars[1..], key);
      assert StringsOf(vars)[1..] == StringsOf(vars[1..]);
      assert HasKey(vars, key) <==> HasKey(vars[1..], key) by {
        if HasKey(vars, key) {
          var i :| 0 <= i < |vars| && vars[i].0 == key;
          assert vars[1..][i - 1].0 == key;
        }
        if HasKey(vars[1..], key) {
          var i :| 0 <= i < |vars[1..]| && vars[1..][i].0 == key;
          assert vars[i + 1].0 == key;
        }
      }
    }
  }

  // ---------------------------------------------------------------------
  // config:set
  // ---------------------------------------------------------------------

  const SetUsageMessage :=
    "Usage: mortar config:set KEY1=VALUE1 [KEY2=VALUE2 ...]\n"
    + "Must specify KEY and VALUE to set."

  /** `arg.split('=', 2)` of an argument holding `=`. */
  function Pair(arg: string): (p: (string, string))
    requires '=' in arg
    ensures '=' !in p.0 && arg == p.0 + "=" + p.1
  {
    var (key, value) := SplitOnce(arg, '=');
    (key, value.value)
  }

  function Pairs(args: seq<string>): (ps: Assoc<string, string>)
    requires forall i :: 0 <= i < |args| ==> '=' in args[i]
    ensures |ps| == |args| && forall i :: 0 <= i < |args| ==> ps[i] == Pair(args[i])
  {
    seq(|args|, i requires 0 <= i < |args| => Pair(args[i]))
  }

  /** config:set: the vars sent, assigned in argument order. */
  function Set(args: seq<string>): (r: Result<Assoc<string, string>>)
    ensures r.Ok? <==> |args| > 0 && forall i :: 0 <= i < |args| ==> '=' in args[i]
    ensures r.Err? ==> r.msg == SetUsageMessage
  {
    if |args| > 0 && forall i :: 0 <= i < |args| ==> '=' in args[i] then Ok(PutAll([], Pairs(args)))
    else Err(SetUsageMessage)
  }

  /** The vars sent name each key once, and each holds the value of the last
      argument that sets it. */
  lemma SetLastWins(args: seq<string>, key: string)
    requires Set(args).Ok?
    ensures DistinctKeys(Set(args).value)
    ensures Lookup(Set(args).value, key) == LastValue(Pairs(args), key)
  {
    PutAllKeys([], Pairs(args));
    PutAllLookup([], Pairs(args), key);
  }

  /** Each argument is its key, `=`, and its value, and the key holds no
      `=`: the value keeps any later `=`. */
  lemma SetSplitsAtFirstEquals(args: seq<string>, i: nat)
    requires Set(args).Ok? && i < |args|
    ensures var (key, value) := Pairs(args)[i];
      args[i] == key + "=" + value && '=' !in key
  {
  }
}
