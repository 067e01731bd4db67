/** The SDK's environment provider, and the whole way from the operator's injection to the SDK's answer. */
module EnvProvider {
  import opened Results
  import opened Text
  import opened EnvNames
  import opened OperatorSpec
  import opened OperatorDelivery
  import opened Sequences

  datatype Flag = Flag(name: string, flagType: string, value: string, disabled: bool)

  /** `os.LookupEnv`: the first string of that name. */
  function LookupEnv(environ: seq<string>, name: string): Option<string> {
    if environ == [] then None
    else
      var i := IndexOf(environ[0], '=');
      if i < |environ[0]| && environ[0][..i] == name then Some(environ[0][i + 1..])
      else LookupEnv(environ[1..], name)
  }

  /** The flags that one environment string stands for. */
  function FlagsOf(s: string): seq<Flag> {
    var i := IndexOf(s, '=');
    if i == |s| || !HasPrefix(s[..i], PREFIX) then []
    else [Flag(EnvSuffixToFlagName(s[..i][|PREFIX|..]), "string", s[i + 1..], false)]
  }

  function AllFlags(environ: seq<string>): seq<Flag> {
    if environ == [] then [] else AllFlags(environ[..|environ| - 1]) + FlagsOf(environ[|environ| - 1])
  }

  function GetFlag(environ: seq<string>, name: string): Result<Flag, string> {
    match LookupEnv(environ, FlagNameToEnvVar(name))
    case None => Failure("not found")
    case Some(v) => Success(Flag(name, "string", v, false))
  }

  method GetAllFlags(environ: seq<string>) returns (flags: seq<Flag>)
    ensures flags == AllFlags(environ)
  {
    flags := [];
    for k := 0 to |environ|
      invariant flags == AllFlags(environ[..k])
    {
      assert environ[..k + 1][..k] == environ[..k];
      var i := IndexOf(environ[k], '=');
      if i == |environ[k]| { continue; }
      var key, val := environ[k][..i], environ[k][i + 1..];
      if !HasPrefix(key, PREFIX) { continue; }
      flags := flags + [Flag(EnvSuffixToFlagName(key[|PREFIX|..]), "string", val, false)];
    }
    assert environ[..|environ|] == environ;
  }

  // ---- The environment of a container -----------------------------------------------------

  /** Kubernetes does not admit '=' in a variable name. */
  predicate LegalNames(env: seq<EnvVar>) {
    forall i | 0 <= i < |env| :: '=' !in env[i].name
  }

  /** The process environment when every entry is taken literally. */
  function Environ(env: seq<EnvVar>): (r: seq<string>)
    ensures |r| == |env|
    ensures forall i | 0 <= i < |r| :: r[i] == env[i].name + "=" + env[i].value
  {
    seq(|env|, i requires 0 <= i < |env| => env[i].name + "=" + env[i].value)
  }

  lemma SplitEntry(name: string, value: string)
    requires '=' !in name
    ensures var s := name + "=" + value;
      IndexOf(s, '=') == |name| && s[..|name|] == name && s[|name| + 1..] == value
  {
    var s := name + "=" + value;
    assert s[|name|] == '=';
    assert forall j | 0 <= j < |name| :: s[j] == name[j];
  }

  /** Looking a name up in the process environment reads the first entry of that name. */
  lemma {:induction false} LookupReadsFirst(env: seq<EnvVar>, name: string)
    requires LegalNames(env)
    ensures LookupEnv(Environ(env), name) == EnvValue(env, name)
  {
    if env != [] {
      SplitEntry(env[0].name, env[0].value);
      assert Environ(env)[1..] == Environ(env[1..]);
      LookupReadsFirst(env[1..], name);
    }
  }

  lemma {:induction false} AllFlagsContains(environ: seq<string>, k: nat, f: Flag)
    requires k < |environ| && FlagsOf(environ[k]) == [f]
    ensures f in AllFlags(environ)
  {
    var front := environ[..|environ| - 1];
    if k < |front| {
      assert front[k] == environ[k];
      AllFlagsContains(front, k, f);
      assert AllFlags(environ) == AllFlags(front) + FlagsOf(environ[|environ| - 1]);
    } else {
      assert AllFlags(environ)[|AllFlags(front)|] == f;
    }
  }

  /** From the operator to the SDK: after injection under the default name, `GetFlag` answers the value,
      `GetAllFlags` lists the flag under its own name, and with distinct names nothing contradicts it. */
  lemma InjectedFlagIsServed(env: seq<EnvVar>, name: string, value: string)
    requires ObjectName(name) && LegalNames(env)
    ensures var env' := InjectEnv(env, FlagNameToEnvVar(name), value);
      && GetFlag(Environ(env'), name) == Success(Flag(name, "string", value, false))
      && Flag(name, "string", value, false) in AllFlags(Environ(env'))
      && (DistinctNames(env) ==>
            && DistinctNames(env')
            && forall i | 0 <= i < |env'| && env'[i].name == FlagNameToEnvVar(name) :: env'[i].value == value)
  {
    var envName := FlagNameToEnvVar(name);
    var env' := InjectEnv(env, envName, value);
    InjectThenRead(env, envName, value, envName);
    LegalEnvName(name);
    assert LegalNames(env');
    LookupReadsFirst(env', envName);
    var i := FirstIndex(env', envName);
    SplitEntry(envName, value);
    SuffixRoundTrip(name);
    assert envName[..|PREFIX|] == PREFIX && envName[|PREFIX|..] == ToUpper(ReplaceChar(name, '-', '_'));
    AllFlagsContains(Environ(env'), i, Flag(name, "string", value, false));
  }

  lemma {:induction false} LegalSuffix(s: string)
    requires ObjectName(s)
    ensures '=' !in ToUpper(ReplaceChar(s, '-', '_'))
  {
    if s != [] {
      assert ObjectNameChar(s[0]);
      assert ObjectName(s[1..]) by {
        forall i | 0 <= i < |s[1..]| ensures ObjectNameChar(s[1..][i]) { assert s[1..][i] == s[i + 1]; }
      }
      LegalSuffix(s[1..]);
      var head := ReplaceChar(s, '-', '_');
      assert head[1..] == ReplaceChar(s[1..], '-', '_');
    }
  }

  lemma LegalEnvName(name: string)
    requires ObjectName(name)
    ensures '=' !in FlagNameToEnvVar(name)
  {
    LegalSuffix(name);
  }

  // ---- What the provider reads off an environment -----------------------------------------

  predicate Assigns(s: string, name: string, value: string) {
    '=' !in name && s == name + "=" + value
  }

  lemma AssignsSplits(s: string, name: string, value: string)
    requires Assigns(s, name, value)
    ensures IndexOf(s, '=') == |name| && s[..|name|] == name && s[|name| + 1..] == value
  {
    SplitEntry(name, value);
  }

  lemma SplitAssigns(s: string)
    requires IndexOf(s, '=') < |s|
    ensures Assigns(s, s[..IndexOf(s, '=')], s[IndexOf(s, '=') + 1..])
  {
    var i := IndexOf(s, '=');
    TakeOneMore(s, i);
    assert s == s[..i + 1] + s[i + 1..];
  }

  /** One string of the environment is one flag if it assigns a variable that starts with FLAG_, and none otherwise. */
  lemma StringMeans(s: string, f: Flag)
    ensures |FlagsOf(s)| <= 1
    ensures f in FlagsOf(s) <==> exists suffix, value ::
      Assigns(s, "FLAG_" + suffix, value) && f == Flag(EnvSuffixToFlagName(suffix), "string", value, false)
  {
    var i := IndexOf(s, '=');
    if i < |s| && HasPrefix(s[..i], PREFIX) {
      SplitAssigns(s);
      assert s[..i] == "FLAG_" + s[..i][|PREFIX|..];
    }
    forall suffix, value | Assigns(s, "FLAG_" + suffix, value)
      ensures FlagsOf(s) == [Flag(EnvSuffixToFlagName(suffix), "string", value, false)]
    {
      AssignsSplits(s, "FLAG_" + suffix, value);
      assert ("FLAG_" + suffix)[..|PREFIX|] == PREFIX && ("FLAG_" + suffix)[|PREFIX|..] == suffix;
    }
  }

  /** The listing follows the environment, string by string. */
  lemma {:induction false} AllFlagsJoin(a: seq<string>, b: seq<string>)
    ensures AllFlags(a + b) == AllFlags(a) + AllFlags(b)
  {
    if b == [] {
      assert a + b == a;
    } else {
      var front, last := b[..|b| - 1], b[|b| - 1];
      AllFlagsJoin(a, front);
      assert (a + b)[..|a + b| - 1] == a + front;
      Regroup(AllFlags(a), AllFlags(front), FlagsOf(last));
    }
  }

  lemma AllFlagsOfOne(s: string)
    ensures AllFlags([s]) == FlagsOf(s)
  {
    assert [s][..0] == [] && [] + FlagsOf(s) == FlagsOf(s);
  }

  /** A single read answers the value of the first string that assigns the flag's variable, whatever the value, and
      fails exactly if there is none. */
  lemma {:induction false} GetFlagMeans(environ: seq<string>, name: string)
    requires '=' !in FlagNameToEnvVar(name)
    ensures match GetFlag(environ, name)
      case Failure(_) => forall k, v | 0 <= k < |environ| :: !Assigns(environ[k], FlagNameToEnvVar(name), v)
      case Success(f) => f.name == name && f.flagType == "string" && !f.disabled && exists k ::
        && 0 <= k < |environ| && Assigns(environ[k], FlagNameToEnvVar(name), f.value)
        && forall j, v | 0 <= j < k :: !Assigns(environ[j], FlagNameToEnvVar(name), v)
  {
    if environ != [] {
      var s, variable := environ[0], FlagNameToEnvVar(name);
      var i := IndexOf(s, '=');
      if i < |s| { SplitAssigns(s); }
      forall v | Assigns(s, variable, v) ensures i < |s| && s[..i] == variable { AssignsSplits(s, variable, v); }
      if i < |s| && s[..i] == variable {
        assert Assigns(environ[0], variable, s[i + 1..]);
      } else {
        GetFlagMeans(environ[1..], name);
        match GetFlag(environ[1..], name) {
          case Failure(_) =>
            forall k, v | 0 <= k < |environ| ensures !Assigns(environ[k], variable, v) {
              if k > 0 { assert environ[k] == environ[1..][k - 1]; }
            }
          case Success(f) =>
            var k :|
              && 0 <= k < |environ[1..]| && Assigns(environ[1..][k], variable, f.value)
              && forall j, v | 0 <= j < k :: !Assigns(environ[1..][j], variable, v);
            assert Assigns(environ[k + 1], variable, f.value);
            forall j, v | 0 <= j < k + 1 ensures !Assigns(environ[j], variable, v) {
              if j > 0 { assert environ[j] == environ[1..][j - 1]; }
            }
        }
      }
    }
  }
}
