/** Properties of a single delivery: reading back, idempotence, framing, and what a failing run leaves behind. */
module OperatorDelivery {
  import opened Results
  import opened FeatureFlags
  import opened OperatorSpec

  /** What a process sees under a name: the first entry of that name. */
  function EnvValue(env: seq<EnvVar>, name: string): Option<string> {
    var i := FirstIndex(env, name);
    if i < |env| then Some(env[i].value) else None
  }

  predicate DistinctNames(env: seq<EnvVar>) {
    forall i, j | 0 <= i < j < |env| :: env[i].name != env[j].name
  }

  /** `FirstIndex` is the only index with the property that its contract gives. */
  lemma FirstIndexUnique(env: seq<EnvVar>, name: string, i: nat)
    requires i <= |env|
    requires i < |env| ==> env[i].name == name
    requires forall j | 0 <= j < i :: env[j].name != name
    ensures FirstIndex(env, name) == i
  {
    var f := FirstIndex(env, name);
    assert !(f < i) && !(i < f);
  }

  /** An injected value is read back, and every other name reads as before. */
  lemma InjectThenRead(env: seq<EnvVar>, name: string, value: string, other: string)
    ensures EnvValue(InjectEnv(env, name, value), name) == Some(value)
    ensures other != name ==> EnvValue(InjectEnv(env, name, value), other) == EnvValue(env, other)
  {
    var env' := InjectEnv(env, name, value);
    FirstIndexUnique(env', name, FirstIndex(env, name));
    if other != name {
      var i := FirstIndex(env, other);
      if i < |env| {
        FirstIndexUnique(env', other, i);
      } else {
        FirstIndexUnique(env', other, |env'|);
      }
    }
  }

  /** Injection is a no-op exactly when the value is already readable. */
  lemma InjectNoop(env: seq<EnvVar>, name: string, value: string)
    ensures InjectEnv(env, name, value) == env <==> EnvValue(env, name) == Some(value)
    ensures InjectEnv(InjectEnv(env, name, value), name, value) == InjectEnv(env, name, value)
  {
    InjectThenRead(env, name, value, name);
    var env' := InjectEnv(env, name, value);
    var i := FirstIndex(env', name);
    assert i < |env'| && env'[i].value == value;
    assert env'[i := env'[i].(value := value)] == env';
  }

  /** Nothing else in the list moves: at most one entry is appended, at most one value is rewritten,
      names, order and references stay, and distinct names stay distinct. */
  lemma InjectFrame(env: seq<EnvVar>, name: string, value: string)
    ensures var env' := InjectEnv(env, name, value);
      && |env| <= |env'| <= |env| + 1
      && (|env'| == |env| + 1 <==> EnvValue(env, name) == None)
      && (|env'| == |env| + 1 ==> env'[|env|] == EnvVar(name, value, None))
      && (forall i | 0 <= i < |env| :: env'[i].name == env[i].name && env'[i].valueFrom == env[i].valueFrom)
      && (forall i | 0 <= i < |env| && env[i].name != name :: env'[i] == env[i])
      && (DistinctNames(env) ==> DistinctNames(env'))
  {
  }

  /** After injection the entry is a literal one unless the container already took that name from a reference. */
  lemma InjectLiteral(env: seq<EnvVar>, name: string, value: string)
    ensures var env' := InjectEnv(env, name, value);
      var i := FirstIndex(env', name);
      i < |env'| &&
      (env'[i].valueFrom == None <==>
        (FirstIndex(env, name) < |env| ==> env[FirstIndex(env, name)].valueFrom == None))
  {
    FirstIndexUnique(InjectEnv(env, name, value), name, FirstIndex(env, name));
  }

  // ---- One Deployment --------------------------------------------------------------------

  predicate AllRead(containers: seq<Container>, name: string, value: string) {
    forall i | 0 <= i < |containers| :: EnvValue(containers[i].env, name) == Some(value)
  }

  lemma InjectDeployment(d: Deployment, inj: Injection)
    ensures Inject(d, inj).labels == d.labels
    ensures |Inject(d, inj).containers| == |d.containers|
    ensures AllRead(Inject(d, inj).containers, inj.envName, inj.value)
    ensures Inject(d, inj) == d <==> AllRead(d.containers, inj.envName, inj.value)
    ensures Inject(Inject(d, inj), inj) == Inject(d, inj)
  {
    var d' := Inject(d, inj);
    forall i | 0 <= i < |d.containers|
      ensures EnvValue(d'.containers[i].env, inj.envName) == Some(inj.value)
      ensures d'.containers[i] == d.containers[i] <==> EnvValue(d.containers[i].env, inj.envName) == Some(inj.value)
    {
      InjectNoop(d.containers[i].env, inj.envName, inj.value);
      InjectThenRead(d.containers[i].env, inj.envName, inj.value, inj.envName);
    }
    if AllRead(d.containers, inj.envName, inj.value) {
      assert InjectAll(d.containers, inj.envName, inj.value) == d.containers;
    }
    forall i | 0 <= i < |d'.containers|
      ensures InjectAll(d'.containers, inj.envName, inj.value)[i] == d'.containers[i]
    {
      InjectNoop(d'.containers[i].env, inj.envName, inj.value);
    }
    assert InjectAll(d'.containers, inj.envName, inj.value) == d'.containers;
  }

  lemma InjectKeepsOthers(d: Deployment, inj: Injection, name: string, value: string)
    requires name != inj.envName && AllRead(d.containers, name, value)
    ensures AllRead(Inject(d, inj).containers, name, value)
  {
    forall i | 0 <= i < |d.containers|
      ensures EnvValue(Inject(d, inj).containers[i].env, name) == Some(value)
    {
      assert EnvValue(d.containers[i].env, name) == Some(value);
      InjectThenRead(d.containers[i].env, inj.envName, inj.value, name);
    }
  }

  // ---- The Deployment loop ---------------------------------------------------------------

  function KeySet(listing: seq<ObjectKey>): set<ObjectKey> {
    set k | k in listing
  }

  /** The Deployments when exactly the given ones have been delivered to. */
  function Touch(deployments: Deployments, keys: set<ObjectKey>, inj: Injection): Deployments {
    map k | k in deployments :: if k in keys then Inject(deployments[k], inj) else deployments[k]
  }

  /** The update calls that a listing needs, in order. */
  function Updates(deployments: Deployments, listing: seq<ObjectKey>, inj: Injection): seq<Write>
    requires forall k | k in listing :: k in deployments
  {
    if listing == [] then []
    else (if Inject(deployments[listing[0]], inj) == deployments[listing[0]] then []
          else [UpdateDeployment(listing[0])]) + Updates(deployments, listing[1..], inj)
  }

  lemma {:induction false} UpdatesFrame(ds: Deployments, ds': Deployments, listing: seq<ObjectKey>, inj: Injection)
    requires forall k | k in listing :: k in ds && k in ds' && ds[k] == ds'[k]
    ensures Updates(ds, listing, inj) == Updates(ds', listing, inj)
  {
    if listing != [] { UpdatesFrame(ds, ds', listing[1..], inj); }
  }

  /** The cut point `at` explains a delivery: everything listed before it was delivered, nothing from it on was
      touched, and when the loop stopped early it did so at a Deployment that needed an update. */
  ghost predicate CutAt(ds: Deployments, listing: seq<ObjectKey>, inj: Injection, budget: Budget,
                        r: Delivered<Deployments>, at: nat)
    requires forall k | k in listing :: k in ds
  {
    && at <= |listing|
    && r.objects == Touch(ds, KeySet(listing[..at]), inj)
    && r.writes == Updates(ds, listing[..at], inj)
    && (r.ok <==> at == |listing|)
    && r.targeted == (if r.ok then |listing| else 0)
    && (!r.ok ==> Inject(ds[listing[at]], inj) != ds[listing[at]] && budget == Limited(|r.writes|))
  }

  lemma CutStep(ds: Deployments, listing: seq<ObjectKey>, inj: Injection, at: nat)
    requires listing != [] && Distinct(listing) && at < |listing|
    requires forall k | k in listing :: k in ds
    ensures var k := listing[0];
      var ds' := ds[k := Inject(ds[k], inj)];
      && Touch(ds', KeySet(listing[1..][..at]), inj) == Touch(ds, KeySet(listing[..at + 1]), inj)
      && Updates(ds', listing[1..][..at], inj) == Updates(ds, listing[1..][..at], inj)
      && Updates(ds, listing[..at + 1], inj)
         == (if ds' == ds then [] else [UpdateDeployment(k)]) + Updates(ds, listing[1..][..at], inj)
  {
    var k := listing[0];
    var rest := listing[1..];
    var ds' := ds[k := Inject(ds[k], inj)];
    assert listing[..at + 1] == [k] + rest[..at];
    assert listing[..at + 1][1..] == rest[..at];
    assert KeySet(listing[..at + 1]) == {k} + KeySet(rest[..at]);
    assert k !in KeySet(rest[..at]);
    UpdatesFrame(ds, ds', rest[..at], inj);
    assert ds' == ds <==> ds'[k] == ds[k];
  }

  lemma {:induction false} DeliverListedCut(ds: Deployments, listing: seq<ObjectKey>, inj: Injection, budget: Budget)
    returns (at: nat)
    requires Distinct(listing) && forall k | k in listing :: k in ds
    ensures CutAt(ds, listing, inj, budget, DeliverListed(ds, listing, inj, budget), at)
    decreases |listing|
  {
    if listing == [] || (Inject(ds[listing[0]], inj) != ds[listing[0]] && budget == Limited(0)) {
      at := 0;
      assert Touch(ds, {}, inj) == ds;
    } else {
      var k := listing[0];
      var ds' := ds[k := Inject(ds[k], inj)];
      assert k !in listing[1..] && Distinct(listing[1..]);
      at := DeliverListedCut(ds', listing[1..], inj, if ds' == ds then budget else Spend(budget));
      assert ds' == ds <==> ds'[k] == ds[k];
      CutStep(ds, listing, inj, at);
      at := at + 1;
    }
  }
}
