/** Parameters of a local Pig run: merging two parameter lists, and the
    parameters Mortar supplies on its own (the user, the project root, the
    AWS keys). */
module LocalParams {
  import opened Common
  import opened CommandBase

  // ---------------------------------------------------------------------
  // merge_parameters
  // ---------------------------------------------------------------------

  function NameSet(ps: seq<Param>): (s: set<Option<string>>)
    ensures forall i :: 0 <= i < |ps| ==> ps[i].name in s
    ensures forall n :: n in s ==> exists i :: 0 <= i < |ps| && ps[i].name == n
  {
    if |ps| == 0 then {}
    else
      var rest := NameSet(ps[1..]);
      assert forall i :: 1 <= i < |ps| ==> ps[i] == ps[1..][i - 1];
      {ps[0].name} + rest
  }

  /** The entries of `ps` whose name is not in `names`, in order. */
  function WithoutNames(ps: seq<Param>, names: set<Option<string>>): (r: seq<Param>)
    ensures |r| <= |ps|
    ensures forall p :: p in r <==> p in ps && p.name !in names
    decreases |ps|
  {
    if |ps| == 0 then []
    else
      var rest := WithoutNames(ps[1..], names);
      assert forall p :: p in ps <==> p == ps[0] || p in ps[1..];
      if ps[0].name in names then rest else [ps[0]] + rest
  }

  /** Filtering works entry by entry: a single entry is kept exactly when its
      name is not excluded. */
  lemma WithoutNamesOne(p: Param, names: set<Option<string>>)
    ensures WithoutNames([p], names) == if p.name in names then [] else [p]
  {
    assert [p][1..] == [];
  }

  /** Filtering a concatenation filters each part, keeping their order. */
  lemma {:induction false} WithoutNamesAppend(a: seq<Param>, b: seq<Param>, names: set<Option<string>>)
    ensures WithoutNames(a + b, names) == WithoutNames(a, names) + WithoutNames(b, names)
    decreases |a|
  {
    if |a| > 0 {
      assert (a + b)[0] == a[0];
      assert (a + b)[1..] == a[1..] + b;
      WithoutNamesAppend(a[1..], b, names);
    } else {
      assert a + b == b;
    }
  }

  /** merge_parameters: all of the second list, in order, then the entries
      of the first whose name the second does not use. */
  function MergeParameters(first: seq<Param>, second: seq<Param>): (r: seq<Param>)
    ensures |second| <= |r| && r[..|second|] == second
    ensures forall p :: p in r[|second|..] <==> p in first && p.name !in NameSet(second)
    ensures r[|second|..] == WithoutNames(first, NameSet(second))
  {
    var r := second + WithoutNames(first, NameSet(second));
    assert r[|second|..] == WithoutNames(first, NameSet(second));
    r
  }

  /** Neither list is changed by merging it with an empty one. */
  lemma MergeWithEmpty(ps: seq<Param>)
    ensures MergeParameters([], ps) == ps
    ensures MergeParameters(ps, []) == ps
  {
    assert NameSet([]) == {};
    WithoutNothing(ps);
  }

  lemma {:induction false} WithoutNothing(ps: seq<Param>)
    ensures WithoutNames(ps, {}) == ps
  {
    if |ps| > 0 {
      WithoutNothing(ps[1..]);
    }
  }

  /** No two entries share a name. */
  predicate UniqueNames(ps: seq<Param>) {
    forall i, j :: 0 <= i < j < |ps| ==> ps[i].name != ps[j].name
  }

  /** No name is listed twice when neither list lists one twice: a name the
      second list uses keeps only the second list's entry. */
  lemma MergeNamesDistinct(first: seq<Param>, second: seq<Param>)
    requires UniqueNames(first) && UniqueNames(second)
    ensures UniqueNames(MergeParameters(first, second))
  {
    var w := WithoutNames(first, NameSet(second));
    WithoutNamesDistinct(first, NameSet(second));
    var r := second + w;
    assert r == MergeParameters(first, second);
    forall i, j | 0 <= i < j < |r|
      ensures r[i].name != r[j].name
    {
      if j >= |second| {
        assert r[j] == w[j - |second|] && r[j] in w;
        assert r[j].name !in NameSet(second);
        if i < |second| {
          assert r[i] == second[i];
          assert r[i].name in NameSet(second);
        } else {
          assert r[i] == w[i - |second|];
        }
      } else {
        assert r[i] == second[i] && r[j] == second[j];
      }
    }
  }

  lemma {:induction false} WithoutNamesDistinct(ps: seq<Param>, names: set<Option<string>>)
    requires UniqueNames(ps)
    ensures UniqueNames(WithoutNames(ps, names))
    decreases |ps|
  {
    if |ps| > 0 {
      var t := ps[1..];
      UniqueTail(ps);
      WithoutNamesDistinct(t, names);
      var rest := WithoutNames(t, names);
      if ps[0].name !in names {
        assert NameSet(rest) <= NameSet(t) by {
          forall n | n in NameSet(rest)
            ensures n in NameSet(t)
          {
            var k :| 0 <= k < |rest| && rest[k].name == n;
            assert rest[k] in rest;
          }
        }
        UniqueCons(ps[0], rest);
        assert WithoutNames(ps, names) == [ps[0]] + rest;
      }
    }
  }

  /** The tail of a list with unique names has them too, and not the head's. */
  lemma UniqueTail(ps: seq<Param>)
    requires |ps| > 0 && UniqueNames(ps)
    ensures UniqueNames(ps[1..]) && ps[0].name !in NameSet(ps[1..])
  {
    var t := ps[1..];
    assert forall i :: 0 <= i < |t| ==> t[i] == ps[i + 1];
    assert forall k :: 0 <= k < |t| ==> t[k].name != ps[0].name;
  }

  /** A head whose name the tail does not use keeps the names unique. */
  lemma UniqueCons(p: Param, ps: seq<Param>)
    requires UniqueNames(ps) && p.name !in NameSet(ps)
    ensures UniqueNames([p] + ps)
  {
    var w := [p] + ps;
    forall i, j | 0 <= i < j < |w|
      ensures w[i].name != w[j].name
    {
      assert w[j] == ps[j - 1];
      if i > 0 {
        assert w[i] == ps[i - 1];
      }
    }
  }

  // ---------------------------------------------------------------------
  // automatic_parameters
  // ---------------------------------------------------------------------

  const MortarEmail := "MORTAR_EMAIL"
  const MortarApiKey := "MORTAR_API_KEY"
  const EmailEscaped := "MORTAR_EMAIL_S3_ESCAPED"
  const ProjectRoot := "MORTAR_PROJECT_ROOT"
  const AccessKey := "AWS_ACCESS_KEY"
  const AccessKeyId := "AWS_ACCESS_KEY_ID"
  const AccessKeyIdLower := "aws_access_key_id"
  const SecretKey := "AWS_SECRET_KEY"
  const SecretAccessKey := "AWS_SECRET_ACCESS_KEY"
  const SecretAccessKeyLower := "aws_secret_access_key"

  /** The automatic parameters' names, in the order they are set. */
  const AutomaticNames: seq<string> := [MortarEmail, MortarApiKey, EmailEscaped, ProjectRoot,
                                         AccessKey, AccessKeyId, AccessKeyIdLower,
                                         SecretKey, SecretAccessKey, SecretAccessKeyLower]

  /** automatic_parameters: the parameters, and the environment afterwards
      (the project root is written into it when it was not there). */
  function AutomaticParameters(env: Env, user: string, apiKey: string, userS3Safe: string, projectRoot: string)
    : (r: (seq<Param>, Env))
    ensures |r.0| == |AutomaticNames| && forall i :: 0 <= i < |r.0| ==> r.0[i].name == Some(AutomaticNames[i])
    ensures r.0[0].value == Some(user) && r.0[1].value == Some(apiKey)
    ensures r.0[2].value == Some(if EmailEscaped in env then env[EmailEscaped] else userS3Safe)
    ensures r.1 == (if ProjectRoot in env then env else env[ProjectRoot := projectRoot])
    ensures ProjectRoot in r.1 && r.0[3].value == Some(r.1[ProjectRoot])
    ensures forall i :: 4 <= i < 7 ==> r.0[i].value == Get(env, AccessKey)
    ensures forall i :: 7 <= i < 10 ==> r.0[i].value == Get(env, SecretKey)
  {
    var escaped := if EmailEscaped in env then env[EmailEscaped] else userS3Safe;
    var env' := if ProjectRoot in env then env else env[ProjectRoot := projectRoot];
    var access := Get(env, AccessKey);
    var secret := Get(env, SecretKey);
    var values := [Some(user), Some(apiKey), Some(escaped), Some(env'[ProjectRoot]),
                   access, access, access, secret, secret, secret];
    (seq(|AutomaticNames|, i requires 0 <= i < |AutomaticNames| => Param(Some(AutomaticNames[i]), values[i])), env')
  }

  /** Each automatic parameter is set once: no two share a name. */
  lemma {:induction false} AutomaticNamesDistinct(env: Env, user: string, apiKey: string, userS3Safe: string, projectRoot: string)
    ensures UniqueNames(AutomaticParameters(env, user, apiKey, userS3Safe, projectRoot).0)
  {
    var ps := AutomaticParameters(env, user, apiKey, userS3Safe, projectRoot).0;
    forall i, j | 0 <= i < j < |ps|
      ensures ps[i].name != ps[j].name
    {
      assert AutomaticNames[i] != AutomaticNames[j] by {
        var n, m := AutomaticNames[i], AutomaticNames[j];
        if |n| == |m| {
          assert n[4] != m[4] || n[0] != m[0] || n[|n| - 1] != m[|m| - 1];
        }
      }
    }
  }

  /** Running a second time changes nothing: the project root written the
      first time is read back. */
  lemma AutomaticParametersStable(env: Env, user: string, apiKey: string, userS3Safe: string, projectRoot: string,
                                  otherRoot: string)
    ensures var (ps, env') := AutomaticParameters(env, user, apiKey, userS3Safe, projectRoot);
      AutomaticParameters(env', user, apiKey, userS3Safe, otherRoot) == (ps, env')
  {
    var (ps, env') := AutomaticParameters(env, user, apiKey, userS3Safe, projectRoot);
    assert Get(env', AccessKey) == Get(env, AccessKey);
    assert Get(env', SecretKey) == Get(env, SecretKey);
    assert (EmailEscaped in env') == (EmailEscaped in env) && (EmailEscaped in env ==> env'[EmailEscaped] == env[EmailEscaped]);
  }
}
