/** Shared vocabulary: optional values, results carrying an error message, the
    handful of Ruby string operations the client relies on, and Ruby's
    insertion-ordered Hash. */
module Common {

  datatype Option<T> = None | Some(value: T)

  /** A computation that either produced a value or raised with a message. */
  datatype Result<T> = Ok(value: T) | Err(msg: string) {
    predicate IsFailure() { Err? }
    function PropagateFailure<U>(): Result<U>
      requires Err?
    {
      Err(msg)
    }
    function Extract(): T
      requires Ok?
    {
      value
    }
  }

  /** The process environment, passed in and handed back explicitly. */
  type Env = map<string, string>

  /** ENV[k]: nil when the variable is not set. */
  function Get(env: Env, k: string): Option<string> {
    if k in env then Some(env[k]) else None
  }

  // ---------------------------------------------------------------------
  // Strings
  // ---------------------------------------------------------------------

  predicate StartsWith(s: string, p: string) {
    |p| <= |s| && s[..|p|] == p
  }

  predicate EndsWith(s: string, p: string) {
    |p| <= |s| && s[|s| - |p|..] == p
  }

  /** Ruby's String#include?: `sub` occurs somewhere in `s`. */
  predicate Contains(s: string, sub: string)
    decreases |s|
  {
    StartsWith(s, sub) || (|s| > 0 && Contains(s[1..], sub))
  }

  /** `sub` occurs in `s` starting at index `i`. */
  predicate OccursAt(s: string, sub: string, i: int) {
    0 <= i && i + |sub| <= |s| && s[i..i + |sub|] == sub
  }

  /** Contains means: `sub` occurs at some index of `s`. */
  lemma {:induction false} ContainsIff(s: string, sub: string)
    ensures Contains(s, sub) <==> exists i :: OccursAt(s, sub, i)
    decreases |s|
  {
    if Contains(s, sub) {
      if StartsWith(s, sub) {
        assert OccursAt(s, sub, 0);
      } else {
        ContainsIff(s[1..], sub);
        var i :| OccursAt(s[1..], sub, i);
        assert s[i + 1..i + 1 + |sub|] == s[1..][i..i + |sub|];
        assert OccursAt(s, sub, i + 1);
      }
    }
    if exists i :: OccursAt(s, sub, i) {
      var i :| OccursAt(s, sub, i);
      ContainsAt(s, sub, i);
    }
  }

  lemma {:induction false} ContainsAt(s: string, sub: string, i: nat)
    requires OccursAt(s, sub, i)
    ensures Contains(s, sub)
    decreases i
  {
    if i == 0 {
      assert s[..|sub|] == sub;
    } else {
      assert s[1..][i - 1..i - 1 + |sub|] == s[i..i + |sub|];
      ContainsAt(s[1..], sub, i - 1);
    }
  }

  /** A string contains itself, and a string containing `sub` keeps it when
      extended on either side. */
  lemma ContainsSelfAndExtensions(a: string, b: string, sub: string)
    ensures Contains(sub, sub)
    ensures Contains(a, sub) ==> Contains(a + b, sub)
    ensures Contains(b, sub) ==> Contains(a + b, sub)
  {
    assert OccursAt(sub, sub, 0);
    ContainsAt(sub, sub, 0);
    if Contains(a, sub) {
      ContainsIff(a, sub);
      var i :| OccursAt(a, sub, i);
      assert (a + b)[i..i + |sub|] == a[i..i + |sub|];
      ContainsAt(a + b, sub, i);
    }
    if Contains(b, sub) {
      ContainsIff(b, sub);
      var i :| OccursAt(b, sub, i);
      assert (a + b)[|a| + i..|a| + i + |sub|] == b[i..i + |sub|];
      ContainsAt(a + b, sub, |a| + i);
    }
  }

  /** What occurs in a slice of `c` occurs in `c`. */
  lemma ContainsWithin(c: string, m: string, k: nat, e: string)
    requires OccursAt(c, m, k) && Contains(m, e)
    ensures Contains(c, e)
  {
    ContainsIff(m, e);
    var j :| OccursAt(m, e, j);
    assert forall t :: 0 <= t < |e| ==> c[k + j + t] == m[j + t] == e[t];
    assert c[k + j..k + j + |e|] == e;
    ContainsAt(c, e, k + j);
  }

  /** Containment is transitive. */
  lemma ContainsWithinFull(c: string, m: string, e: string)
    requires Contains(c, m) && Contains(m, e)
    ensures Contains(c, e)
  {
    ContainsIff(c, m);
    var k :| OccursAt(c, m, k);
    ContainsWithin(c, m, k, e);
  }

  /** The white space Ruby's String#strip removes at either end. */
  predicate IsSpace(c: char) {
    c in Whitespace
  }

  function TrimLeft(s: string): (r: string)
    ensures |r| <= |s| && s[|s| - |r|..] == r
    ensures r == [] || !IsSpace(r[0])
    ensures forall i :: 0 <= i < |s| - |r| ==> IsSpace(s[i])
  {
    if |s| > 0 && IsSpace(s[0]) then TrimLeft(s[1..]) else s
  }

  /** The characters String#strip removes at the end: white space and also NUL. */
  predicate IsTrailingSpace(c: char) {
    c == '\0' || IsSpace(c)
  }

  function TrimRight(s: string): (r: string)
    ensures |r| <= |s| && s[..|r|] == r
    ensures r == [] || !IsTrailingSpace(r[|r| - 1])
    ensures forall i :: |r| <= i < |s| ==> IsTrailingSpace(s[i])
  {
    if |s| > 0 && IsTrailingSpace(s[|s| - 1]) then TrimRight(s[..|s| - 1]) else s
  }

  /** Ruby's String#strip: the middle of `s` with no white space at either end. */
  function Strip(s: string): (r: string)
    ensures |r| <= |s|
    ensures r == [] || (!IsSpace(r[0]) && !IsTrailingSpace(r[|r| - 1]))
    ensures exists k :: OccursAt(s, r, k)
  {
    var l := TrimLeft(s);
    var r := TrimRight(l);
    assert s[|s| - |l|..][..|r|] == r;
    assert s[|s| - |l|..|s| - |l| + |r|] == r;
    assert OccursAt(s, r, |s| - |l|);
    r
  }

  lemma TrimLeftKeeps(s: string, e: string, k: nat)
    requires |e| > 0 && !IsSpace(e[0]) && OccursAt(s, e, k)
    ensures OccursAt(TrimLeft(s), e, k - (|s| - |TrimLeft(s)|))
  {
    var l := TrimLeft(s);
    var d := |s| - |l|;
    assert s[k] == e[0];
    assert k >= d;
    assert forall t :: 0 <= t < |e| ==> l[k - d + t] == s[k + t] == e[t];
    assert l[k - d..k - d + |e|] == e;
  }

  lemma TrimRightKeeps(s: string, e: string, k: nat)
    requires |e| > 0 && !IsTrailingSpace(e[|e| - 1]) && OccursAt(s, e, k)
    ensures OccursAt(TrimRight(s), e, k)
  {
    var r := TrimRight(s);
    assert s[k + |e| - 1] == e[|e| - 1];
    assert k + |e| <= |r|;
    assert forall t :: 0 <= t < |e| ==> r[k + t] == s[k + t] == e[t];
    assert r[k..k + |e|] == e;
  }

  /** Stripping white space cannot break an occurrence of text that does not
      begin or end with white space. */
  lemma StripKeeps(s: string, e: string)
    requires |e| > 0 && !IsSpace(e[0]) && !IsTrailingSpace(e[|e| - 1])
    requires Contains(s, e)
    ensures Contains(Strip(s), e)
  {
    ContainsIff(s, e);
    var k :| OccursAt(s, e, k);
    var l := TrimLeft(s);
    TrimLeftKeeps(s, e, k);
    var k' := k - (|s| - |l|);
    TrimRightKeeps(l, e, k');
    ContainsAt(TrimRight(l), e, k');
  }

  /** Different middles make different strings between the same ends. */
  lemma DistinctMiddles(d: string, a: string, b: string, f: string)
    requires a != b
    ensures d + a + f != d + b + f
  {
    if |a| == |b| {
      assert (d + a + f)[|d|..|d| + |a|] == a && (d + b + f)[|d|..|d| + |b|] == b;
    } else {
      assert |d + a + f| != |d + b + f|;
    }
  }

  /** A string with no white space at either end is its own strip. */
  lemma StripTrimmed(s: string)
    requires s == [] || (!IsSpace(s[0]) && !IsTrailingSpace(s[|s| - 1]))
    ensures Strip(s) == s
  {
  }

  /** No character of `s` is in `seps`. */
  predicate NoneIn(s: string, seps: set<char>) {
    forall i :: 0 <= i < |s| ==> s[i] !in seps
  }

  /** Every field of `s` between occurrences of characters from `seps`, empty
      fields included. */
  function Fields(s: string, seps: set<char>): (r: seq<string>)
    ensures |r| >= 1
    ensures forall i :: 0 <= i < |r| ==> NoneIn(r[i], seps)
    decreases |s|
  {
    if |s| == 0 then [""]
    else if s[0] in seps then [""] + Fields(s[1..], seps)
    else
      var rest := Fields(s[1..], seps);
      [[s[0]] + rest[0]] + rest[1..]
  }

  /** The inverse of Fields: the pieces glued back with the separator. */
  function Join(xs: seq<string>, c: char): string
    decreases |xs|
  {
    if |xs| == 0 then ""
    else if |xs| == 1 then xs[0]
    else xs[0] + [c] + Join(xs[1..], c)
  }

  /** Every piece occurs in the joined text. */
  lemma {:induction false} JoinContains(xs: seq<string>, c: char, i: nat)
    requires i < |xs|
    ensures Contains(Join(xs, c), xs[i])
    decreases |xs|
  {
    if |xs| == 1 {
      ContainsSelfAndExtensions(xs[0], "", xs[0]);
    } else {
      var rest := Join(xs[1..], c);
      assert Join(xs, c) == xs[0] + ([c] + rest);
      if i == 0 {
        ContainsSelfAndExtensions(xs[0], [c] + rest, xs[0]);
      } else {
        JoinContains(xs[1..], c, i - 1);
        ContainsSelfAndExtensions([c], rest, xs[i]);
        ContainsSelfAndExtensions(xs[0], [c] + rest, xs[i]);
      }
    }
  }

  lemma {:induction false} JoinFields(s: string, c: char)
    ensures Join(Fields(s, {c}), c) == s
    decreases |s|
  {
    if |s| == 0 {
    } else if s[0] == c {
      JoinFields(s[1..], c);
      var rest := Fields(s[1..], {c});
      assert Fields(s, {c}) == [""] + rest;
    } else {
      JoinFields(s[1..], c);
      var rest := Fields(s[1..], {c});
      var r := [[s[0]] + rest[0]] + rest[1..];
      assert Fields(s, {c}) == r;
      if |rest| == 1 {
        assert Join(r, c) == [s[0]] + rest[0];
      } else {
        assert r[1..] == rest[1..];
        assert Join(r, c) == [s[0]] + rest[0] + [c] + Join(rest[1..], c);
        assert Join(rest, c) == rest[0] + [c] + Join(rest[1..], c);
      }
    }
  }

  /** Fields undoes Join when no piece holds the separator. */
  lemma {:induction false} FieldsJoin(ls: seq<string>, c: char)
    requires |ls| >= 1
    requires forall i :: 0 <= i < |ls| ==> NoneIn(ls[i], {c})
    ensures Fields(Join(ls, c), {c}) == ls
    decreases |ls|
  {
    if |ls| == 1 {
      FieldsNoSeparator(ls[0], {c});
    } else {
      FieldsJoin(ls[1..], c);
      FieldsCons(ls[0], c, Join(ls[1..], c), {c});
      assert [ls[0]] + ls[1..] == ls;
    }
  }

  /** The text `ls` joined with newlines splits back into `ls`, less the empty
      lines at its end. */
  lemma SplitLinesJoin(ls: seq<string>)
    requires |ls| >= 1
    requires forall i :: 0 <= i < |ls| ==> NoneIn(ls[i], {'\n'})
    ensures SplitLines(Join(ls, '\n')) == DropTrailingEmpty(ls)
  {
    FieldsJoin(ls, '\n');
  }

  /** Splitting a string that has no separator in it gives that string. */
  lemma {:induction false} FieldsNoSeparator(s: string, seps: set<char>)
    requires NoneIn(s, seps)
    ensures Fields(s, seps) == [s]
    decreases |s|
  {
    if |s| > 0 {
      FieldsNoSeparator(s[1..], seps);
      assert [s[0]] + s[1..] == s;
    }
  }

  /** Splitting `a + [c] + b`, where `c` separates and `a` has no separator,
      puts `a` first. */
  lemma {:induction false} FieldsCons(a: string, c: char, b: string, seps: set<char>)
    requires c in seps && NoneIn(a, seps)
    ensures Fields(a + [c] + b, seps) == [a] + Fields(b, seps)
    decreases |a|
  {
    if |a| == 0 {
      assert a + [c] + b == [c] + b;
      assert ([c] + b)[1..] == b;
    } else {
      var s := a + [c] + b;
      assert s[0] == a[0];
      assert s[1..] == a[1..] + [c] + b;
      FieldsCons(a[1..], c, b, seps);
      assert [a[0]] + a[1..] == a;
    }
  }

  function DropTrailingEmpty(xs: seq<string>): (r: seq<string>)
    ensures |r| <= |xs| && xs[..|r|] == r
    ensures r == [] || r[|r| - 1] != ""
    ensures forall i :: |r| <= i < |xs| ==> xs[i] == ""
  {
    if |xs| > 0 && xs[|xs| - 1] == "" then DropTrailingEmpty(xs[..|xs| - 1]) else xs
  }

  /** Ruby's String#split with a one-character separator (or a one-character
      class such as `/\s/`) and no limit: the fields, with the empty fields at
      the end removed. */
  function Split(s: string, seps: set<char>): (r: seq<string>)
    ensures forall i :: 0 <= i < |r| ==> NoneIn(r[i], seps)
    ensures r == [] || r[|r| - 1] != ""
  {
    DropTrailingEmpty(Fields(s, seps))
  }

  /** The fields of `xs` that are not empty, in order. */
  function NonEmpty(xs: seq<string>): (r: seq<string>)
    ensures |r| <= |xs|
    ensures forall i :: 0 <= i < |r| ==> r[i] != "" && r[i] in xs
    ensures forall i :: 0 <= i < |xs| && xs[i] != "" ==> xs[i] in r
  {
    if |xs| == 0 then []
    else if xs[0] == "" then NonEmpty(xs[1..])
    else [xs[0]] + NonEmpty(xs[1..])
  }

  const Whitespace: set<char> := {' ', '\t', '\n', '\r', '\U{B}', '\U{C}'}

  /** Ruby's String#split(" "): the runs of non-blank characters. */
  function Words(s: string): (r: seq<string>)
    ensures forall i :: 0 <= i < |r| ==> r[i] != "" && NoneIn(r[i], Whitespace)
  {
    NonEmpty(Fields(s, Whitespace))
  }

  /** Lines of a text, as Ruby's `split("\n")` gives them. */
  function SplitLines(s: string): seq<string> {
    Split(s, {'\n'})
  }

  /** Ruby's String#split(c, 2): the text before the first `c` and, when there is
      a `c`, everything after it. */
  function SplitOnce(s: string, c: char): (r: (string, Option<string>))
    ensures c !in r.0
    ensures r.1.None? <==> c !in s
    ensures r.1.Some? ==> s == r.0 + [c] + r.1.value
    ensures r.1.None? ==> r.0 == s
    decreases |s|
  {
    if |s| == 0 then ("", None)
    else if s[0] == c then ("", Some(s[1..]))
    else
      var (name, rest) := SplitOnce(s[1..], c);
      ([s[0]] + name, rest)
  }

  /** Ruby's String#chomp: one trailing "\r\n", "\n" or "\r" removed. */
  function Chomp(s: string): (r: string)
    ensures StartsWith(s, r) && |s| - 2 <= |r|
  {
    if EndsWith(s, "\r\n") then s[..|s| - 2]
    else if EndsWith(s, "\n") || EndsWith(s, "\r") then s[..|s| - 1]
    else s
  }

  /** Lines of `s`, each followed by "\n" (how Ruby's IO#puts writes them). */
  function Lines(xs: seq<string>): string
  {
    if |xs| == 0 then "" else xs[0] + "\n" + Lines(xs[1..])
  }

  lemma {:induction false} LinesJoin(xs: seq<string>)
    ensures Lines(xs) == Join(xs + [""], '\n')
    decreases |xs|
  {
    if |xs| > 0 {
      LinesJoin(xs[1..]);
      assert (xs + [""])[1..] == xs[1..] + [""];
    }
  }

  /** Text written line by line splits back into its lines. */
  lemma {:induction false} SplitLinesOfLines(xs: seq<string>)
    requires forall i :: 0 <= i < |xs| ==> xs[i] != "" && NoneIn(xs[i], {'\n'})
    ensures SplitLines(Lines(xs)) == xs
  {
    LinesJoin(xs);
    var ys := xs + [""];
    assert forall i :: 0 <= i < |ys| ==> NoneIn(ys[i], {'\n'}) by {
      assert forall i :: 0 <= i < |xs| ==> ys[i] == xs[i];
    }
    SplitLinesJoin(ys);
    DropOneTrailingEmpty(xs);
  }

  lemma DropOneTrailingEmpty(xs: seq<string>)
    requires xs == [] || xs[|xs| - 1] != ""
    ensures DropTrailingEmpty(xs + [""]) == xs
  {
    assert (xs + [""])[..|xs|] == xs;
  }

  /** Text written line by line holds every line and ends with a newline. */
  lemma {:induction false} LinesContains(xs: seq<string>)
    ensures forall i :: 0 <= i < |xs| ==> Contains(Lines(xs), xs[i])
    ensures |xs| > 0 ==> EndsWith(Lines(xs), "\n")
    decreases |xs|
  {
    if |xs| > 0 {
      LinesContains(xs[1..]);
      var rest := "\n" + Lines(xs[1..]);
      assert Lines(xs) == xs[0] + rest;
      ContainsSelfAndExtensions(xs[0], rest, xs[0]);
      forall i | 1 <= i < |xs|
        ensures Contains(Lines(xs), xs[i])
      {
        assert xs[i] == xs[1..][i - 1];
        ContainsSelfAndExtensions("\n", Lines(xs[1..]), xs[i]);
        ContainsSelfAndExtensions(xs[0], rest, xs[i]);
      }
      if |xs| == 1 {
        assert Lines(xs) == xs[0] + "\n";
      }
    }
  }

  // ---------------------------------------------------------------------
  // Decimal numbers: Integer#to_s and String#to_i
  // ---------------------------------------------------------------------

  predicate IsDigit(c: char) { '0' <= c <= '9' }

  function DigitChar(d: nat): (c: char)
    requires d < 10
    ensures IsDigit(c)
  {
    (48 + d) as char
  }

  /** Integer#to_s for a natural number. */
  function NatToString(n: nat): (r: string)
    ensures |r| >= 1
    ensures forall i :: 0 <= i < |r| ==> IsDigit(r[i])
  {
    if n < 10 then [DigitChar(n)] else NatToString(n / 10) + [DigitChar(n % 10)]
  }

  /** The longest run of digits `s` starts with. */
  function LeadingDigits(s: string): (r: string)
    ensures |r| <= |s| && r == s[..|r|]
    ensures forall i :: 0 <= i < |r| ==> IsDigit(r[i])
    ensures |r| == |s| || !IsDigit(s[|r|])
  {
    if |s| > 0 && IsDigit(s[0]) then [s[0]] + LeadingDigits(s[1..]) else ""
  }

  /** The value of a string of digits. */
  function DigitsValue(ds: string): nat
    requires forall i :: 0 <= i < |ds| ==> IsDigit(ds[i])
  {
    if |ds| == 0 then 0
    else
      assert IsDigit(ds[|ds| - 1]);
      DigitsValue(ds[..|ds| - 1]) * 10 + (ds[|ds| - 1] as int - 48)
  }

  /** Ruby's String#to_i on text that starts with a decimal number (or 0 when it
      does not start with a digit). */
  function ToI(s: string): nat {
    DigitsValue(LeadingDigits(s))
  }

  /** Reading back the decimal text of `n`, followed by anything that is not a
      digit, gives `n`. */
  lemma NatToStringToI(n: nat, rest: string)
    requires rest == [] || !IsDigit(rest[0])
    ensures ToI(NatToString(n) + rest) == n
  {
    var t := NatToString(n);
    LeadingDigitsPrefix(t, rest);
    DigitsValueOfNat(n);
  }

  lemma {:induction false} LeadingDigitsPrefix(t: string, rest: string)
    requires forall i :: 0 <= i < |t| ==> IsDigit(t[i])
    requires rest == [] || !IsDigit(rest[0])
    ensures LeadingDigits(t + rest) == t
    decreases |t|
  {
    if |t| > 0 {
      assert (t + rest)[1..] == t[1..] + rest;
      LeadingDigitsPrefix(t[1..], rest);
      assert [t[0]] + t[1..] == t;
    }
  }

  lemma {:induction false} DigitsValueOfNat(n: nat)
    ensures DigitsValue(NatToString(n)) == n
  {
    if n >= 10 {
      var t := NatToString(n);
      assert t[..|t| - 1] == NatToString(n / 10);
      DigitsValueOfNat(n / 10);
    }
  }

  /** Different numbers print differently. */
  lemma NatToStringInjective(m: nat, n: nat)
    requires NatToString(m) == NatToString(n)
    ensures m == n
  {
    DigitsValueOfNat(m);
    DigitsValueOfNat(n);
  }

  // ---------------------------------------------------------------------
  // Paths and inspected names
  // ---------------------------------------------------------------------

  /** File.basename of a path without a trailing `/`: what follows the last
      `/`. */
  function Basename(p: string): (r: string)
    ensures NoneIn(r, {'/'}) && EndsWith(p, r)
    ensures NoneIn(p, {'/'}) ==> r == p
  {
    if |p| == 0 then ""
    else if p[|p| - 1] == '/' then ""
    else
      var r := Basename(p[..|p| - 1]) + [p[|p| - 1]];
      assert p == p[..|p| - 1] + [p[|p| - 1]];
      r
  }

  /** A name with no `/` after a `/` is the basename. */
  lemma {:induction false} BasenameAfterSlash(a: string, b: string)
    requires NoneIn(b, {'/'}) && |a| > 0 && a[|a| - 1] == '/'
    ensures Basename(a + b) == b
    decreases |b|
  {
    if |b| > 0 {
      var b' := b[..|b| - 1];
      assert (a + b)[..|a + b| - 1] == a + b';
      BasenameAfterSlash(a, b');
      assert b == b' + [b[|b| - 1]];
    } else {
      assert a + b == a;
    }
  }

  /** Ruby's String#inspect of a name without quotes, backslashes or control
      characters. */
  function Quote(s: string): string {
    "\"" + s + "\""
  }

  /** Ruby's Array#inspect (and Array#to_s) of a list of such names. */
  function Inspect(xs: seq<string>): string {
    "[" + InspectItems(xs) + "]"
  }

  function InspectItems(xs: seq<string>): string {
    if |xs| == 0 then ""
    else if |xs| == 1 then Quote(xs[0])
    else Quote(xs[0]) + ", " + InspectItems(xs[1..])
  }

  // ---------------------------------------------------------------------
  // Ruby Hash: keys in first-insertion order, assignment updates in place
  // ---------------------------------------------------------------------

  type Assoc<K, V> = seq<(K, V)>

  function Keys<K, V>(m: Assoc<K, V>): (ks: seq<K>)
    ensures |ks| == |m|
    ensures forall i :: 0 <= i < |m| ==> ks[i] == m[i].0
  {
    if |m| == 0 then [] else [m[0].0] + Keys(m[1..])
  }

  predicate DistinctKeys<K(==), V>(m: Assoc<K, V>) {
    forall i, j :: 0 <= i < j < |m| ==> m[i].0 != m[j].0
  }

  predicate HasKey<K(==), V>(m: Assoc<K, V>, k: K) {
    exists i :: 0 <= i < |m| && m[i].0 == k
  }

  /** The value of the first entry with key `k` (the only one in a Hash). */
  function Lookup<K(==), V(==)>(m: Assoc<K, V>, k: K): (r: Option<V>)
    ensures r.Some? <==> HasKey(m, k)
    ensures r.Some? ==> exists i :: 0 <= i < |m| && m[i] == (k, r.value)
  {
    if |m| == 0 then None
    else if m[0].0 == k then Some(m[0].1)
    else
      var r := Lookup(m[1..], k);
      assert r.Some? ==> exists i :: 0 <= i < |m[1..]| && m[1..][i] == (k, r.value);
      assert HasKey(m[1..], k) ==> HasKey(m, k) by {
        if HasKey(m[1..], k) {
          var i :| 0 <= i < |m[1..]| && m[1..][i].0 == k;
          assert m[i + 1].0 == k;
        }
      }
      assert HasKey(m, k) ==> HasKey(m[1..], k) by {
        if HasKey(m, k) {
          var i :| 0 <= i < |m| && m[i].0 == k;
          assert m[1..][i - 1].0 == k;
        }
      }
      r
  }

  /** Ruby's `h[k] = v`: replaces the value in place when `k` is present,
      otherwise appends the entry. */
  function Put<K(==), V(==)>(m: Assoc<K, V>, k: K, v: V): (r: Assoc<K, V>)
    ensures HasKey(m, k) ==> |r| == |m|
    ensures !HasKey(m, k) ==> r == m + [(k, v)]
    ensures Keys(r) == if HasKey(m, k) then Keys(m) else Keys(m) + [k]
    ensures forall i :: 0 <= i < |m| ==> r[i] == if m[i].0 == k then (k, v) else m[i]
  {
    if HasKey(m, k) then seq(|m|, i requires 0 <= i < |m| => if m[i].0 == k then (k, v) else m[i])
    else m + [(k, v)]
  }

  /** Assignment keeps the keys distinct, reads back what was written and leaves
      every other key alone. */
  lemma PutLookup<K, V>(m: Assoc<K, V>, k: K, v: V, k': K)
    requires DistinctKeys(m)
    ensures DistinctKeys(Put(m, k, v))
    ensures Lookup(Put(m, k, v), k') == if k' == k then Some(v) else Lookup(m, k')
  {
    var r := Put(m, k, v);
    assert forall i :: 0 <= i < |r| ==> (i < |m| && r[i].0 == m[i].0) || (i == |m| && r[i].0 == k);
    var l := Lookup(r, k');
    if k' == k {
      var i :| 0 <= i < |r| && r[i] == (k, v);
      assert HasKey(r, k);
      var j :| 0 <= j < |r| && r[j] == (k', l.value);
    } else {
      if l.Some? {
        var i :| 0 <= i < |r| && r[i] == (k', l.value);
        assert i < |m| && m[i] == r[i];
        var j :| 0 <= j < |m| && m[j] == (k', Lookup(m, k').value);
      }
    }
  }

  lemma PutLookupSame<K, V>(m: Assoc<K, V>, k: K, v: V)
    ensures Lookup(Put(m, k, v), k) == Some(v)
  {
    var r := Put(m, k, v);
    assert HasKey(r, k) by {
      if HasKey(m, k) {
        var i :| 0 <= i < |m| && m[i].0 == k;
        assert r[i] == (k, v);
      } else {
        assert r[|m|] == (k, v);
      }
    }
    FirstKeyLookup(r, k, v);
  }

  /** In a Put result the first entry with key k carries v. */
  lemma FirstKeyLookup<K, V>(r: Assoc<K, V>, k: K, v: V)
    requires HasKey(r, k)
    requires forall i :: 0 <= i < |r| && r[i].0 == k ==> r[i].1 == v
    ensures Lookup(r, k) == Some(v)
  {
    if r[0].0 != k {
      assert HasKey(r[1..], k) by {
        var i :| 0 <= i < |r| && r[i].0 == k;
        assert r[1..][i - 1].0 == k;
      }
      FirstKeyLookup(r[1..], k, v);
    }
  }

  /** Two lists that agree wherever key `k` appears give the same value for it. */
  lemma {:induction false} LookupPointwise<K, V>(a: Assoc<K, V>, b: Assoc<K, V>, k: K)
    requires |a| == |b|
    requires forall i :: 0 <= i < |a| ==> (a[i].0 == k <==> b[i].0 == k)
    requires forall i :: 0 <= i < |a| && a[i].0 == k ==> a[i].1 == b[i].1
    ensures Lookup(a, k) == Lookup(b, k)
    decreases |a|
  {
    if |a| > 0 && a[0].0 != k {
      assert forall i :: 0 <= i < |a| - 1 ==> a[1..][i] == a[i + 1] && b[1..][i] == b[i + 1];
      LookupPointwise(a[1..], b[1..], k);
    }
  }

  /** An entry appended under another key does not change a lookup. */
  lemma {:induction false} LookupAppendOther<K, V>(m: Assoc<K, V>, e: (K, V), k: K)
    requires e.0 != k
    ensures Lookup(m + [e], k) == Lookup(m, k)
    decreases |m|
  {
    if |m| > 0 && m[0].0 != k {
      assert (m + [e])[1..] == m[1..] + [e];
      LookupAppendOther(m[1..], e, k);
    }
  }

  /** Assignment leaves every other key's value alone, duplicates or not. */
  lemma PutLookupOther<K, V>(m: Assoc<K, V>, k: K, v: V, k': K)
    requires k' != k
    ensures Lookup(Put(m, k, v), k') == Lookup(m, k')
  {
    if HasKey(m, k) {
      LookupPointwise(Put(m, k, v), m, k');
    } else {
      LookupAppendOther(m, (k, v), k');
    }
  }

  /** The value of the last entry with key `k`: what a run of assignments in
      list order leaves behind. */
  function LastValue<K(==), V(==)>(m: Assoc<K, V>, k: K): (r: Option<V>)
    ensures r.Some? <==> HasKey(m, k)
  {
    if |m| == 0 then None
    else
      var rest := LastValue(m[1..], k);
      assert HasKey(m[1..], k) ==> HasKey(m, k) by {
        if HasKey(m[1..], k) {
          var i :| 0 <= i < |m[1..]| && m[1..][i].0 == k;
          assert m[i + 1].0 == k;
        }
      }
      assert HasKey(m, k) && m[0].0 != k ==> HasKey(m[1..], k) by {
        if HasKey(m, k) && m[0].0 != k {
          var i :| 0 <= i < |m| && m[i].0 == k;
          assert m[1..][i - 1].0 == k;
        }
      }
      if rest.Some? then rest else if m[0].0 == k then Some(m[0].1) else None
  }

  /** The last entry of a list decides its key's last value. */
  lemma {:induction false} LastValueSnoc<K, V>(m: Assoc<K, V>, e: (K, V), k: K)
    ensures LastValue(m + [e], k) == if e.0 == k then Some(e.1) else LastValue(m, k)
    decreases |m|
  {
    if |m| > 0 {
      assert (m + [e])[1..] == m[1..] + [e];
      LastValueSnoc(m[1..], e, k);
    } else {
      assert (m + [e])[1..] == [];
    }
  }

  /** A run of Ruby `h[k] = v` assignments, in order: also `h.merge(other)`,
      which assigns every entry of `other` in turn. */
  function PutAll<K(==), V(==)>(acc: Assoc<K, V>, es: Assoc<K, V>): (r: Assoc<K, V>)
    decreases |es|
  {
    if |es| == 0 then acc
    else
      var last := es[|es| - 1];
      Put(PutAll(acc, es[..|es| - 1]), last.0, last.1)
  }

  /** One more assignment. */
  lemma PutAllSnoc<K, V>(acc: Assoc<K, V>, es: Assoc<K, V>, e: (K, V))
    ensures PutAll(acc, es + [e]) == Put(PutAll(acc, es), e.0, e.1)
  {
    assert (es + [e])[..|es|] == es;
  }

  /** After the assignments a key holds the last value assigned to it, or
      what it held before when it was not assigned. */
  lemma {:induction false} PutAllLookup<K, V>(acc: Assoc<K, V>, es: Assoc<K, V>, k: K)
    ensures Lookup(PutAll(acc, es), k) == if HasKey(es, k) then LastValue(es, k) else Lookup(acc, k)
    decreases |es|
  {
    if |es| > 0 {
      var init := es[..|es| - 1];
      var last := es[|es| - 1];
      assert es == init + [last];
      PutAllLookup(acc, init, k);
      LastValueSnoc(init, last, k);
      if last.0 == k {
        PutLookupSame(PutAll(acc, init), k, last.1);
        assert HasKey(es, k) by { assert es[|es| - 1].0 == k; }
      } else {
        PutLookupOther(PutAll(acc, init), last.0, last.1, k);
        assert HasKey(es, k) <==> HasKey(init, k) by {
          if HasKey(es, k) {
            var i :| 0 <= i < |es| && es[i].0 == k;
            assert init[i].0 == k;
          }
          if HasKey(init, k) {
            var i :| 0 <= i < |init| && init[i].0 == k;
            assert es[i].0 == k;
          }
        }
      }
    }
  }

  /** The assignments keep keys distinct, keep the old keys first and in
      order, and add exactly the keys assigned. */
  lemma {:induction false} PutAllKeys<K, V>(acc: Assoc<K, V>, es: Assoc<K, V>)
    ensures DistinctKeys(acc) ==> DistinctKeys(PutAll(acc, es))
    ensures |Keys(acc)| <= |Keys(PutAll(acc, es))| && Keys(PutAll(acc, es))[..|acc|] == Keys(acc)
    decreases |es|
  {
    if |es| > 0 {
      var init := es[..|es| - 1];
      var last := es[|es| - 1];
      PutAllKeys(acc, init);
      var m := PutAll(acc, init);
      if DistinctKeys(m) {
        PutLookup(m, last.0, last.1, last.0);
      }
      assert Keys(Put(m, last.0, last.1))[..|m|] == Keys(m);
    }
  }

  /** A key is present after the assignments exactly when it was before or
      was assigned. */
  lemma PutAllHasKey<K, V>(acc: Assoc<K, V>, es: Assoc<K, V>, k: K)
    ensures HasKey(PutAll(acc, es), k) <==> HasKey(acc, k) || HasKey(es, k)
  {
    PutAllLookup(acc, es, k);
  }

  /** In a list with distinct keys the last value of a key is its only one. */
  lemma {:induction false} DistinctLastValue<K, V>(m: Assoc<K, V>, k: K)
    requires DistinctKeys(m)
    ensures LastValue(m, k) == Lookup(m, k)
    decreases |m|
  {
    if |m| > 0 {
      var t := m[1..];
      assert DistinctKeys(t) by {
        forall i, j | 0 <= i < j < |t| ensures t[i].0 != t[j].0 {
          assert t[i] == m[i + 1] && t[j] == m[j + 1];
        }
      }
      DistinctLastValue(t, k);
    }
  }
}
