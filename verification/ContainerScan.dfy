/** What the scanner shows of a container: flag variables and managed ConfigMaps, and nothing of any secret. */
module ContainerScan {
  import opened EnvNames
  import opened Results
  import opened Text
  import opened Sequences

  datatype Ref = Ref(name: string, key: string)

  /** The two references that the scanner looks at; both are missing for field and resource references. */
  datatype ValueFrom = ValueFrom(configMapKeyRef: Option<Ref>, secretKeyRef: Option<Ref>)

  datatype PodEnv = PodEnv(name: string, value: string, valueFrom: Option<ValueFrom>)

  datatype EnvFrom = EnvFrom(configMapRef: Option<string>, secretRef: Option<string>)

  datatype PodContainer = PodContainer(name: string, image: string, env: seq<PodEnv>, envFrom: seq<EnvFrom>)

  datatype Origin = Unstated | InConfigMap(ref: Ref) | Secret

  datatype EnvVarInfo = EnvVarInfo(name: string, value: string, source: Origin, isMasked: bool, flagName: string)

  /** A reference to a ConfigMap, whole or by key. */
  datatype ConfigMapRef = ConfigMapRef(name: string, key: string)

  datatype ContainerInfo =
    ContainerInfo(name: string, image: string, envVars: seq<EnvVarInfo>, configMapRefs: seq<ConfigMapRef>)

  function InfoOf(env: PodEnv): EnvVarInfo
    requires HasPrefix(env.name, PREFIX)
  {
    var plain := EnvVarInfo(env.name, "", Unstated, false, env.name[|PREFIX|..]);
    match env.valueFrom
    case None => plain.(value := env.value)
    case Some(from) =>
      if from.configMapKeyRef.Some? then plain.(source := InConfigMap(from.configMapKeyRef.value))
      else if from.secretKeyRef.Some? then plain.(source := Secret, isMasked := true)
      else plain
  }

  function ShownEnv(env: PodEnv): seq<EnvVarInfo> {
    if HasPrefix(env.name, PREFIX) then [InfoOf(env)] else []
  }

  function ShownKeyRef(env: PodEnv): seq<ConfigMapRef> {
    if HasPrefix(env.name, PREFIX) && env.valueFrom.Some? && env.valueFrom.value.configMapKeyRef.Some? then
      var ref := env.valueFrom.value.configMapKeyRef.value;
      [ConfigMapRef(ref.name, ref.key)]
    else []
  }

  function ShownEnvFrom(from: EnvFrom, managed: set<string>): seq<ConfigMapRef> {
    if from.configMapRef.Some? && from.configMapRef.value in managed then [ConfigMapRef(from.configMapRef.value, "")]
    else []
  }

  function Flatten<A, B>(s: seq<A>, f: A -> seq<B>): seq<B> {
    if s == [] then [] else Flatten(s[..|s| - 1], f) + f(s[|s| - 1])
  }

  function ShownFrom(managed: set<string>): EnvFrom -> seq<ConfigMapRef> {
    (from: EnvFrom) => ShownEnvFrom(from, managed)
  }

  function Shown(c: PodContainer, managed: set<string>): ContainerInfo {
    ContainerInfo(c.name, c.image, Flatten(c.env, ShownEnv),
      Flatten(c.env, ShownKeyRef) + Flatten(c.envFrom, ShownFrom(managed)))
  }

  function ShownAll(containers: seq<PodContainer>, managed: set<string>): (r: seq<ContainerInfo>)
    ensures |r| == |containers|
    ensures forall i | 0 <= i < |r| :: r[i] == Shown(containers[i], managed)
  {
    seq(|containers|, i requires 0 <= i < |containers| => Shown(containers[i], managed))
  }

  /** The nested loops of the scanner. */
  method ExtractContainersSafe(containers: seq<PodContainer>, managed: set<string>) returns (infos: seq<ContainerInfo>)
    ensures infos == ShownAll(containers, managed)
  {
    infos := [];
    for k := 0 to |containers|
      invariant |infos| == k
      invariant forall i | 0 <= i < k :: infos[i] == Shown(containers[i], managed)
    {
      var c := containers[k];
      var info := ContainerInfo(c.name, c.image, [], []);
      for ei := 0 to |c.env|
        invariant info == ContainerInfo(
          c.name, c.image, Flatten(c.env[..ei], ShownEnv), Flatten(c.env[..ei], ShownKeyRef))
      {
        assert c.env[..ei + 1][..ei] == c.env[..ei];
        var env := c.env[ei];
        if !HasPrefix(env.name, PREFIX) { continue; }
        var ev := EnvVarInfo(env.name, "", Unstated, false, env.name[5..]);
        if env.valueFrom.Some? {
          var from := env.valueFrom.value;
          if from.configMapKeyRef.Some? {
            ev := ev.(source := InConfigMap(from.configMapKeyRef.value));
            info := info.(configMapRefs := info.configMapRefs
              + [ConfigMapRef(from.configMapKeyRef.value.name, from.configMapKeyRef.value.key)]);
          } else if from.secretKeyRef.Some? {
            ev := ev.(source := Secret, isMasked := true);
          }
        } else {
          ev := ev.(value := env.value);
        }
        info := info.(envVars := info.envVars + [ev]);
      }
      assert c.env[..|c.env|] == c.env;
      for fi := 0 to |c.envFrom|
        invariant info == ContainerInfo(c.name, c.image, Flatten(c.env, ShownEnv),
          Flatten(c.env, ShownKeyRef) + Flatten(c.envFrom[..fi], ShownFrom(managed)))
      {
        assert c.envFrom[..fi + 1][..fi] == c.envFrom[..fi];
        var from := c.envFrom[fi];
        if from.configMapRef.Some? && from.configMapRef.value in managed {
          info := info.(configMapRefs := info.configMapRefs + [ConfigMapRef(from.configMapRef.value, "")]);
        }
      }
      assert c.envFrom[..|c.envFrom|] == c.envFrom;
      infos := infos + [info];
    }
    assert infos == ShownAll(containers, managed);
  }

  // ---- What stays hidden ------------------------------------------------------------------

  /** An entry without its hidden parts: other variables lose everything, references lose the literal, and a secret
      reference loses its name and key. */
  function RedactEnv(env: PodEnv): seq<PodEnv> {
    if !HasPrefix(env.name, PREFIX) then []
    else match env.valueFrom
      case None => [env]
      case Some(from) =>
        if from.configMapKeyRef.Some? then [PodEnv(env.name, "", Some(ValueFrom(from.configMapKeyRef, None)))]
        else if from.secretKeyRef.Some? then [PodEnv(env.name, "", Some(ValueFrom(None, Some(Ref("", "")))))]
        else [PodEnv(env.name, "", Some(ValueFrom(None, None)))]
  }

  function RedactFrom(from: EnvFrom, managed: set<string>): seq<EnvFrom> {
    if from.configMapRef.Some? && from.configMapRef.value in managed then [EnvFrom(from.configMapRef, None)] else []
  }

  function RedactingFrom(managed: set<string>): EnvFrom -> seq<EnvFrom> {
    (from: EnvFrom) => RedactFrom(from, managed)
  }

  function Redacted(c: PodContainer, managed: set<string>): PodContainer {
    PodContainer(c.name, c.image, Flatten(c.env, RedactEnv), Flatten(c.envFrom, RedactingFrom(managed)))
  }

  lemma {:induction false} FlattenConcat<A, B>(s: seq<A>, t: seq<A>, f: A -> seq<B>)
    ensures Flatten(s + t, f) == Flatten(s, f) + Flatten(t, f)
  {
    if t == [] {
      assert s + t == s;
    } else {
      FlattenConcat(s, t[..|t| - 1], f);
      assert (s + t)[..|s + t| - 1] == s + t[..|t| - 1];
      Regroup(Flatten(s, f), Flatten(t[..|t| - 1], f), f(t[|t| - 1]));
    }
  }

  /** Flattening a flattened list, when the second function undoes nothing that the first one kept. */
  lemma {:induction false} FlattenFlattened<A, B>(s: seq<A>, keep: A -> seq<A>, f: A -> seq<B>)
    requires forall x | x in s :: Flatten(keep(x), f) == f(x)
    ensures Flatten(Flatten(s, keep), f) == Flatten(s, f)
  {
    if s != [] {
      var front, last := s[..|s| - 1], s[|s| - 1];
      FlattenFlattened(front, keep, f);
      FlattenConcat(Flatten(front, keep), keep(last), f);
      assert last in s;
    }
  }

  lemma RedactedEntryShowsTheSame(env: PodEnv)
    ensures Flatten(RedactEnv(env), ShownEnv) == ShownEnv(env)
    ensures Flatten(RedactEnv(env), ShownKeyRef) == ShownKeyRef(env)
  {
    var r := RedactEnv(env);
    if r != [] {
      assert r[..0] == [];
      assert Flatten(r, ShownEnv) == [] + ShownEnv(r[0]) && Flatten(r, ShownKeyRef) == [] + ShownKeyRef(r[0]);
    }
  }

  lemma RedactedSourceShowsTheSame(from: EnvFrom, managed: set<string>)
    ensures Flatten(RedactFrom(from, managed), ShownFrom(managed)) == ShownEnvFrom(from, managed)
  {
    var r := RedactFrom(from, managed);
    if r != [] {
      assert r[..0] == [] && Flatten(r, ShownFrom(managed)) == [] + ShownEnvFrom(r[0], managed);
    }
  }

  lemma RedactedShowsTheSame(c: PodContainer, managed: set<string>)
    ensures Shown(Redacted(c, managed), managed) == Shown(c, managed)
  {
    forall env | env in c.env
      ensures Flatten(RedactEnv(env), ShownEnv) == ShownEnv(env)
      ensures Flatten(RedactEnv(env), ShownKeyRef) == ShownKeyRef(env)
    {
      RedactedEntryShowsTheSame(env);
    }
    FlattenFlattened(c.env, RedactEnv, ShownEnv);
    FlattenFlattened(c.env, RedactEnv, ShownKeyRef);
    forall from | from in c.envFrom
      ensures Flatten(RedactingFrom(managed)(from), ShownFrom(managed)) == ShownFrom(managed)(from)
    {
      RedactedSourceShowsTheSame(from, managed);
    }
    FlattenFlattened(c.envFrom, RedactingFrom(managed), ShownFrom(managed));
  }

  /** Two containers that differ only in hidden parts, such as the name, key or presence of secrets, the values of
      other variables or unmanaged sources, look the same to the scanner. */
  lemma HiddenPartsDoNotShow(a: PodContainer, b: PodContainer, managed: set<string>)
    requires Redacted(a, managed) == Redacted(b, managed)
    ensures Shown(a, managed) == Shown(b, managed)
  {
    RedactedShowsTheSame(a, managed);
    RedactedShowsTheSame(b, managed);
  }

  lemma {:induction false} FlattenContains<A, B>(s: seq<A>, f: A -> seq<B>, y: B)
    ensures y in Flatten(s, f) <==> exists x :: x in s && y in f(x)
  {
    if s != [] {
      var front, last := s[..|s| - 1], s[|s| - 1];
      FlattenContains(front, f, y);
      assert s == front + [last];
    }
  }

  /** The flag variables that take their value from a ConfigMap that Vexil does not manage. */
  predicate TakesUnmanaged(env: PodEnv, managed: set<string>) {
    && HasPrefix(env.name, PREFIX)
    && env.valueFrom.Some? && env.valueFrom.value.configMapKeyRef.Some?
    && env.valueFrom.value.configMapKeyRef.value.name !in managed
  }

  /** The promise that only managed ConfigMaps are shown holds exactly when no flag variable takes its value from an
      unmanaged one: such references are shown without a check. */
  lemma OnlyManagedAreShown(c: PodContainer, managed: set<string>)
    ensures (forall ref | ref in Shown(c, managed).configMapRefs :: ref.name in managed)
      <==> !exists env :: env in c.env && TakesUnmanaged(env, managed)
  {
    var refs := Shown(c, managed).configMapRefs;
    forall ref ensures ref in refs <==>
      (exists env :: env in c.env && ref in ShownKeyRef(env))
      || (exists from :: from in c.envFrom && ref in ShownEnvFrom(from, managed))
    {
      FlattenContains(c.env, ShownKeyRef, ref);
      FlattenContains(c.envFrom, ShownFrom(managed), ref);
    }
    if env :| env in c.env && TakesUnmanaged(env, managed) {
      assert ShownKeyRef(env)[0] in refs;
    }
  }

  // ---- A larger set of managed ConfigMaps -------------------------------------------------

  predicate IsExtra(from: EnvFrom, own: set<string>, all: set<string>) {
    from.configMapRef.Some? && from.configMapRef.value in all && from.configMapRef.value !in own
  }

  /** A whole ConfigMap is taken in that only the larger set knows. */
  predicate TakesExtra(c: PodContainer, own: set<string>, all: set<string>) {
    SomeExtra(c.envFrom, own, all)
  }

  predicate SomeExtra(froms: seq<EnvFrom>, own: set<string>, all: set<string>) {
    exists from :: from in froms && IsExtra(from, own, all)
  }

  lemma SomeExtraOneMore(froms: seq<EnvFrom>, last: EnvFrom, own: set<string>, all: set<string>)
    ensures SomeExtra(froms + [last], own, all) <==> SomeExtra(froms, own, all) || IsExtra(last, own, all)
  {
    assert last in froms + [last];
  }

  lemma {:induction false} ExtraShows(froms: seq<EnvFrom>, own: set<string>, all: set<string>)
    requires own <= all
    ensures var a, b := Flatten(froms, ShownFrom(own)), Flatten(froms, ShownFrom(all));
      && |a| <= |b|
      && (a == b <==> !SomeExtra(froms, own, all))
  {
    if froms != [] {
      var front, last := froms[..|froms| - 1], froms[|froms| - 1];
      ExtraShows(front, own, all);
      assert froms == front + [last];
      SomeExtraOneMore(front, last, own, all);
      var a, b := Flatten(front, ShownFrom(own)), Flatten(front, ShownFrom(all));
      if !IsExtra(last, own, all) {
        var same := ShownEnvFrom(last, own);
        assert same == ShownEnvFrom(last, all);
        if a + same == b + same { SameFront(a, b, same); }
      }
    }
  }

  lemma SameFront<T>(a: seq<T>, b: seq<T>, tail: seq<T>)
    requires a + tail == b + tail
    ensures a == b
  {
    assert |a| == |b|;
    assert (a + tail)[..|a|] == a && (b + tail)[..|b|] == b;
  }

  lemma SameRest<T>(head: seq<T>, a: seq<T>, b: seq<T>)
    requires head + a == head + b
    ensures a == b
  {
    assert (head + a)[|head|..] == a && (head + b)[|head|..] == b;
  }

  /** With a larger managed set the container looks the same exactly when it takes in no whole ConfigMap that only the
      larger set knows. */
  lemma LargerSetShowsMore(c: PodContainer, own: set<string>, all: set<string>)
    requires own <= all
    ensures Shown(c, own) == Shown(c, all) <==> !TakesExtra(c, own, all)
  {
    ExtraShows(c.envFrom, own, all);
    if Shown(c, own) == Shown(c, all) {
      SameRest(Flatten(c.env, ShownKeyRef), Flatten(c.envFrom, ShownFrom(own)), Flatten(c.envFrom, ShownFrom(all)));
    }
  }

  // ---- What is shown ----------------------------------------------------------------------

  /** Variables that do not start with FLAG_ are not shown. One that does is shown under its name and, without prefix,
      as a flag: with its value if that is literal, masked if it comes from a secret, with the reference if it comes
      from a ConfigMap. */
  lemma VariableShown(env: PodEnv)
    ensures ShownEnv(env) != [] <==> |env.name| >= 5 && env.name[..5] == "FLAG_"
    ensures ShownEnv(env) != [] ==>
      var info := ShownEnv(env)[0];
      var cm := if env.valueFrom.Some? then env.valueFrom.value.configMapKeyRef else None;
      && ShownEnv(env) == [info]
      && info.name == env.name && env.name == "FLAG_" + info.flagName
      && info.value == (if env.valueFrom == None then env.value else "")
      && (info.isMasked <==> env.valueFrom.Some? && cm == None && env.valueFrom.value.secretKeyRef.Some?)
      && info.source == (if cm.Some? then InConfigMap(cm.value) else if info.isMasked then Secret else Unstated)
      && ShownKeyRef(env) == if cm.Some? then [ConfigMapRef(cm.value.name, cm.value.key)] else []
    ensures ShownEnv(env) == [] ==> ShownKeyRef(env) == []
  {
  }

  /** A container is shown by name and image, with its variables in order, then its references by key in order, then the
      whole ConfigMaps that are managed in order. */
  lemma ContainerShown(c: PodContainer, managed: set<string>)
    ensures Shown(c, managed).name == c.name && Shown(c, managed).image == c.image
    ensures c.env != [] ==>
      var front, last := c.(env := c.env[..|c.env| - 1], envFrom := []), c.env[|c.env| - 1];
      && Shown(c, managed).envVars == Shown(front, managed).envVars + ShownEnv(last)
      && Shown(c.(envFrom := []), managed).configMapRefs == Shown(front, managed).configMapRefs + ShownKeyRef(last)
    ensures c.env == [] ==> Shown(c, managed).envVars == []
    ensures c.envFrom != [] ==>
      var front, last := c.(envFrom := c.envFrom[..|c.envFrom| - 1]), c.envFrom[|c.envFrom| - 1];
      Shown(c, managed).configMapRefs == Shown(front, managed).configMapRefs
        + if last.configMapRef.Some? && last.configMapRef.value in managed
          then [ConfigMapRef(last.configMapRef.value, "")] else []
    ensures c.env == [] && c.envFrom == [] ==> Shown(c, managed).configMapRefs == []
  {
    if c.envFrom != [] {
      var n := |c.envFrom| - 1;
      Regroup(Flatten(c.env, ShownKeyRef), Flatten(c.envFrom[..n], ShownFrom(managed)),
              ShownEnvFrom(c.envFrom[n], managed));
    }
  }
}
