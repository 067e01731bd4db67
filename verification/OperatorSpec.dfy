/** What one reconcile of a FeatureFlag does to a cluster, as a function of the cluster, of the order in
    which the API server lists Deployments, and of where its calls start to fail.

    A reconcile that sees a failing call makes no further call except the status update, so a fault
    pattern is a number of calls that succeed before the first failure, plus the fate of that update. */
module OperatorSpec {
  import opened Results
  import opened LabelSelectors
  import opened FeatureFlags
  import opened EnvNames

  /** `valueFrom` is the opaque reference of an entry that takes its value from elsewhere. */
  datatype EnvVar = EnvVar(name: string, value: string, valueFrom: Option<string>)

  datatype Container = Container(name: string, env: seq<EnvVar>)

  datatype Deployment =
    Deployment(labels: Labels, templateAnnotations: map<string, string>, containers: seq<Container>)

  datatype ConfigMap = ConfigMap(labels: Labels, data: map<string, string>)

  datatype Cluster = Cluster(
    flags: map<ObjectKey, FeatureFlag>,
    deployments: map<ObjectKey, Deployment>,
    configMaps: map<ObjectKey, ConfigMap>)

  datatype Budget = Unlimited | Limited(calls: nat)

  datatype Faults = Faults(budget: Budget, statusOk: bool)

  datatype Write =
    | UpdateDeployment(key: ObjectKey)
    | CreateConfigMap(key: ObjectKey)
    | UpdateConfigMap(key: ObjectKey)

  const HASH_ANNOTATION := "vexil.io/flags-hash"
  const MANAGED_LABELS: Labels := map["app.kubernetes.io/managed-by" := "vexil"]

  // ---- One container and one Deployment -------------------------------------------------

  /** Index of the first entry of that name, or the length when there is none. */
  function FirstIndex(env: seq<EnvVar>, name: string): (i: nat)
    ensures i <= |env|
    ensures i < |env| ==> env[i].name == name
    ensures forall j | 0 <= j < i :: env[j].name != name
  {
    if env == [] || env[0].name == name then 0 else 1 + FirstIndex(env[1..], name)
  }

  function InjectEnv(env: seq<EnvVar>, name: string, value: string): seq<EnvVar> {
    var i := FirstIndex(env, name);
    if i < |env| then env[i := env[i].(value := value)] else env + [EnvVar(name, value, None)]
  }

  function InjectAll(containers: seq<Container>, name: string, value: string): (r: seq<Container>)
    ensures |r| == |containers|
    ensures forall i | 0 <= i < |r| :: r[i] == containers[i].(env := InjectEnv(containers[i].env, name, value))
  {
    seq(|containers|, i requires 0 <= i < |containers| =>
      containers[i].(env := InjectEnv(containers[i].env, name, value)))
  }

  /** What a flag injects: the flag's own name goes into the tracking annotation. */
  datatype Injection = Injection(flagName: string, envName: string, value: string)

  function Inject(d: Deployment, inj: Injection): Deployment {
    var containers := InjectAll(d.containers, inj.envName, inj.value);
    if containers == d.containers then d
    else d.(containers := containers,
            templateAnnotations := d.templateAnnotations[HASH_ANNOTATION := inj.flagName + "=" + inj.value])
  }

  // ---- Selection -------------------------------------------------------------------------

  type Deployments = map<ObjectKey, Deployment>
  type ConfigMaps = map<ObjectKey, ConfigMap>

  ghost function Selected(deployments: Deployments, ns: string, s: Selector): set<ObjectKey> {
    set k | k in deployments && k.ns == ns && Matches(s, deployments[k].labels)
  }

  predicate Distinct<T(==)>(s: seq<T>) {
    forall i, j | 0 <= i < j < |s| :: s[i] != s[j]
  }

  /** One of the orders in which the API server may list a set of objects. */
  ghost predicate Lists(listing: seq<ObjectKey>, keys: set<ObjectKey>) {
    Distinct(listing) && forall k :: k in listing <==> k in keys
  }

  // ---- Delivery --------------------------------------------------------------------------

  function EffectiveEnvName(d: EnvVarDelivery, flagName: string): string {
    if d.name == "" then FlagNameToEnvVar(flagName) else d.name
  }

  function InjectionOf(d: EnvVarDelivery, key: ObjectKey, spec: FlagSpec): Injection {
    Injection(key.name, EffectiveEnvName(d, key.name), spec.defaultValue)
  }

  function Spend(b: Budget): Budget {
    match b
    case Unlimited => Unlimited
    case Limited(n) => Limited(if n == 0 then 0 else n - 1)
  }

  /** `left` is the budget after the calls made; `ok` says that none of them failed. */
  datatype Delivered<T> =
    Delivered(objects: T, ok: bool, targeted: nat, writes: seq<Write>, left: Budget)

  /** The Deployment loop over a listing. */
  function DeliverListed(deployments: Deployments, listing: seq<ObjectKey>, inj: Injection, budget: Budget)
    : (r: Delivered<Deployments>)
    requires forall k | k in listing :: k in deployments
    ensures budget.Unlimited? ==> r.left.Unlimited?
    decreases |listing|
  {
    if listing == [] then Delivered(deployments, true, 0, [], budget)
    else
      var k := listing[0];
      var d' := Inject(deployments[k], inj);
      if d' == deployments[k] then
        var rest := DeliverListed(deployments, listing[1..], inj, budget);
        rest.(targeted := if rest.ok then rest.targeted + 1 else 0)
      else if budget == Limited(0) then
        Delivered(deployments, false, 0, [], budget)
      else
        var rest := DeliverListed(deployments[k := d'], listing[1..], inj, Spend(budget));
        rest.(targeted := if rest.ok then rest.targeted + 1 else 0,
              writes := [UpdateDeployment(k)] + rest.writes)
  }

  function DeliverEnvVar(deployments: Deployments, key: ObjectKey, spec: FlagSpec, d: EnvVarDelivery,
                         listing: seq<ObjectKey>, budget: Budget): (r: Delivered<Deployments>)
    requires forall k | k in listing :: k in deployments
    ensures budget.Unlimited? ==> r.left.Unlimited?
  {
    match AsSelector(d.selector)
    case Failure(_) => Delivered(deployments, false, 0, [], budget)
    case Success(_) =>
      if budget == Limited(0) then Delivered(deployments, false, 0, [], budget)
      else DeliverListed(deployments, listing, InjectionOf(d, key, spec), Spend(budget))
  }

  /** Reading a Go map: a missing key is the empty string. */
  function ReadData(data: map<string, string>, key: string): string {
    if key in data then data[key] else ""
  }

  function DeliverConfigMap(configMaps: ConfigMaps, key: ObjectKey, spec: FlagSpec, d: ConfigMapDelivery,
                            budget: Budget): Delivered<ConfigMaps>
  {
    var cmKey := ObjectKey(key.ns, d.configMapName);
    var b := Spend(budget);
    if budget == Limited(0) then Delivered(configMaps, false, 0, [], budget)
    else if cmKey !in configMaps then
      if b == Limited(0) then Delivered(configMaps, false, 0, [], b)
      else
        var created := ConfigMap(MANAGED_LABELS, map[d.key := spec.defaultValue]);
        Delivered(configMaps[cmKey := created], true, 0, [CreateConfigMap(cmKey)], Spend(b))
    else
      var cm := configMaps[cmKey];
      if ReadData(cm.data, d.key) == spec.defaultValue then Delivered(configMaps, true, 0, [], b)
      else if b == Limited(0) then Delivered(configMaps, false, 0, [], b)
      else
        var updated := cm.(data := cm.data[d.key := spec.defaultValue]);
        Delivered(configMaps[cmKey := updated], true, 0, [UpdateConfigMap(cmKey)], Spend(b))
  }

  predicate HasEnv(spec: FlagSpec) {
    spec.delivery.Some? && spec.delivery.value.envVar.Some?
  }

  predicate HasConfigMap(spec: FlagSpec) {
    spec.delivery.Some? && spec.delivery.value.configMap.Some?
  }

  function EnvStep(deployments: Deployments, key: ObjectKey, spec: FlagSpec, listing: seq<ObjectKey>, budget: Budget)
    : (r: Delivered<Deployments>)
    requires forall k | k in listing :: k in deployments
    ensures budget.Unlimited? ==> r.left.Unlimited?
  {
    if HasEnv(spec)
    then DeliverEnvVar(deployments, key, spec, spec.delivery.value.envVar.value, listing, budget)
    else Delivered(deployments, true, 0, [], budget)
  }

  function ConfigMapStep(configMaps: ConfigMaps, key: ObjectKey, spec: FlagSpec, budget: Budget): Delivered<ConfigMaps>
  {
    if HasConfigMap(spec)
    then DeliverConfigMap(configMaps, key, spec, spec.delivery.value.configMap.value, budget)
    else Delivered(configMaps, true, 0, [], budget)
  }

  /** Both channels in order; the second is skipped when the first fails. */
  function Deliver(c: Cluster, key: ObjectKey, spec: FlagSpec, listing: seq<ObjectKey>, budget: Budget)
    : (r: Delivered<Cluster>)
    requires forall k | k in listing :: k in c.deployments
  {
    var env := EnvStep(c.deployments, key, spec, listing, budget);
    var cm := if env.ok then ConfigMapStep(c.configMaps, key, spec, env.left)
              else Delivered(c.configMaps, false, 0, [], env.left);
    Delivered(Cluster(c.flags, env.objects, cm.objects), cm.ok, env.targeted, env.writes + cm.writes, cm.left)
  }

  // ---- Reconcile -------------------------------------------------------------------------

  datatype Reconciled = Reconciled(cluster: Cluster, err: bool, writes: seq<Write>)

  function WithStatus(c: Cluster, key: ObjectKey, status: FlagStatus, statusOk: bool): (r: Cluster)
    requires key in c.flags
    ensures r.deployments == c.deployments && r.configMaps == c.configMaps
    ensures r.flags.Keys == c.flags.Keys
    ensures forall k | k in c.flags :: r.flags[k].spec == c.flags[k].spec
    ensures forall k | k in c.flags && k != key :: r.flags[k] == c.flags[k]
    ensures r.flags[key].status == if statusOk then status else c.flags[key].status
  {
    if statusOk then c.(flags := c.flags[key := c.flags[key].(status := status)]) else c
  }

  function Reconcile(c: Cluster, key: ObjectKey, listing: seq<ObjectKey>, faults: Faults): Reconciled
    requires forall k | k in listing :: k in c.deployments
  {
    if faults.budget == Limited(0) then Reconciled(c, true, [])
    else if key !in c.flags then Reconciled(c, false, [])
    else
      var spec := c.flags[key].spec;
      if spec.disabled then
        Reconciled(WithStatus(c, key, FlagStatus(Disabled, spec.defaultValue, 0), faults.statusOk),
                   !faults.statusOk, [])
      else
        var d := Deliver(c, key, spec, listing, Spend(faults.budget));
        var status := if d.ok then FlagStatus(Active, spec.defaultValue, d.targeted)
                      else FlagStatus(Failed, spec.defaultValue, 0);
        Reconciled(WithStatus(d.objects, key, status, faults.statusOk), !faults.statusOk, d.writes)
  }

  /** The Deployments that a flag targets. */
  ghost function Targets(deployments: Deployments, key: ObjectKey, spec: FlagSpec): set<ObjectKey> {
    if HasEnv(spec) && AsSelector(spec.delivery.value.envVar.value.selector).Success? then
      Selected(deployments, key.ns, AsSelector(spec.delivery.value.envVar.value.selector).value)
    else {}
  }

  /** The listing is one of the API server's answers for the flag at this moment. */
  ghost predicate Fits(c: Cluster, key: ObjectKey, listing: seq<ObjectKey>) {
    Lists(listing, if key in c.flags then Targets(c.deployments, key, c.flags[key].spec) else {})
  }
}
