/** The naming rule shared by the operator and the Go SDK: flag "dark-mode" is variable FLAG_DARK_MODE. */
module EnvNames {

  /** `strings.ReplaceAll` of one character by another. */
  function ReplaceChar(s: string, from: char, to: char): (r: string)
    ensures |r| == |s|
  {
    if s == [] then [] else [if s[0] == from then to else s[0]] + ReplaceChar(s[1..], from, to)
  }

  function UpperChar(c: char): char {
    if 'a' <= c <= 'z' then (c as int - 32) as char else c
  }

  function LowerChar(c: char): char {
    if 'A' <= c <= 'Z' then (c as int + 32) as char else c
  }

  function ToUpper(s: string): (r: string)
    ensures |r| == |s|
  {
    if s == [] then [] else [UpperChar(s[0])] + ToUpper(s[1..])
  }

  function ToLower(s: string): (r: string)
    ensures |r| == |s|
  {
    if s == [] then [] else [LowerChar(s[0])] + ToLower(s[1..])
  }

  const PREFIX := "FLAG_"

  function FlagNameToEnvVar(name: string): string {
    PREFIX + ToUpper(ReplaceChar(name, '-', '_'))
  }

  /** The way back, applied by `GetAllFlags` to what follows the prefix. */
  function EnvSuffixToFlagName(suffix: string): string {
    ToLower(ReplaceChar(suffix, '_', '-'))
  }

  /** The characters Kubernetes allows in the name of a FeatureFlag object. */
  predicate ObjectNameChar(c: char) {
    'a' <= c <= 'z' || '0' <= c <= '9' || c == '.' || c == '-'
  }

  predicate ObjectName(s: string) {
    forall i | 0 <= i < |s| :: ObjectNameChar(s[i])
  }

  /** Upper-casing and dashing a flag name loses nothing: the SDK's inverse recovers it. */
  lemma {:induction false} SuffixRoundTrip(name: string)
    requires ObjectName(name)
    ensures EnvSuffixToFlagName(ToUpper(ReplaceChar(name, '-', '_'))) == name
  {
    if name != [] {
      var head := ReplaceChar(name, '-', '_');
      var upper := ToUpper(head);
      assert ObjectNameChar(name[0]);
      assert ObjectName(name[1..]) by {
        forall i | 0 <= i < |name[1..]| ensures ObjectNameChar(name[1..][i]) { assert name[1..][i] == name[i + 1]; }
      }
      SuffixRoundTrip(name[1..]);
      assert head[1..] == ReplaceChar(name[1..], '-', '_');
      assert upper[1..] == ToUpper(head[1..]);
      assert ReplaceChar(upper, '_', '-')[1..] == ReplaceChar(upper[1..], '_', '-');
    }
  }

  /** Two Kubernetes-legal flag names never share a variable. */
  lemma EnvNamesInjective(a: string, b: string)
    requires ObjectName(a) && ObjectName(b)
    requires FlagNameToEnvVar(a) == FlagNameToEnvVar(b)
    ensures a == b
  {
    SuffixRoundTrip(a);
    SuffixRoundTrip(b);
    assert FlagNameToEnvVar(a)[|PREFIX|..] == ToUpper(ReplaceChar(a, '-', '_'));
    assert FlagNameToEnvVar(b)[|PREFIX|..] == ToUpper(ReplaceChar(b, '-', '_'));
  }

  /** Without the naming restriction the rule is not injective: an underscore collides with a dash. */
  lemma UnderscoreCollides()
    ensures FlagNameToEnvVar("a-b") == FlagNameToEnvVar("a_b")
  {
    assert ReplaceChar("a-b", '-', '_') == "a_b" by {
      assert "a-b"[1..] == "-b" && "-b"[1..] == "b" && "b"[1..] == "";
    }
    assert ReplaceChar("a_b", '-', '_') == "a_b" by {
      assert "a_b"[1..] == "_b" && "_b"[1..] == "b" && "b"[1..] == "";
    }
  }

  // ---- How a name is spelled --------------------------------------------------------------

  lemma {:induction false} SpelledOut(name: string, i: nat)
    requires i < |name|
    ensures ToUpper(ReplaceChar(name, '-', '_'))[i]
      == if name[i] == '-' then '_' else if 'a' <= name[i] <= 'z' then name[i] - 'a' + 'A' else name[i]
  {
    if i > 0 { SpelledOut(name[1..], i - 1); }
  }

  /** The variable of a flag: "FLAG_", then each dash as an underscore and each letter in capitals. */
  lemma VariableSpelling(name: string)
    ensures var v := FlagNameToEnvVar(name);
      && |v| == 5 + |name| && v[..5] == "FLAG_"
      && forall i | 0 <= i < |name| :: v[5 + i]
           == if name[i] == '-' then '_' else if 'a' <= name[i] <= 'z' then name[i] - 'a' + 'A' else name[i]
  {
    forall i | 0 <= i < |name| { SpelledOut(name, i); }
  }

  lemma {:induction false} ReadOut(suffix: string, i: nat)
    requires i < |suffix|
    ensures EnvSuffixToFlagName(suffix)[i]
      == if suffix[i] == '_' then '-' else if 'A' <= suffix[i] <= 'Z' then suffix[i] - 'A' + 'a' else suffix[i]
  {
    if i > 0 { ReadOut(suffix[1..], i - 1); }
  }

  /** The flag name read off a variable: each underscore as a dash and each letter small. */
  lemma FlagNameSpelling(suffix: string)
    ensures |EnvSuffixToFlagName(suffix)| == |suffix|
    ensures forall i | 0 <= i < |suffix| ::
      EnvSuffixToFlagName(suffix)[i] ==
      if suffix[i] == '_' then '-' else if 'A' <= suffix[i] <= 'Z' then suffix[i] - 'A' + 'a' else suffix[i]
  {
    forall i | 0 <= i < |suffix| { ReadOut(suffix, i); }
  }
}
