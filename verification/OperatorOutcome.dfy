/** What a reconcile leaves behind, said on the fields of the flag and of the objects it delivers to: which variable,
    annotation, ConfigMap entry and status a cluster ends up with, and how many calls that takes. */
module OperatorOutcome {
  import opened Results
  import opened LabelSelectors
  import opened FeatureFlags
  import opened EnvNames
  import opened OperatorSpec
  import opened OperatorDelivery
  import opened OperatorReconcile

  /** The flag is enabled and asks for this environment channel. */
  predicate AsksForVariable(c: Cluster, key: ObjectKey, d: EnvVarDelivery) {
    && key in c.flags && !c.flags[key].spec.disabled
    && c.flags[key].spec.delivery.Some? && c.flags[key].spec.delivery.value.envVar == Some(d)
  }

  /** The flag is enabled and asks for this ConfigMap channel. */
  predicate AsksForConfigMap(c: Cluster, key: ObjectKey, d: ConfigMapDelivery) {
    && key in c.flags && !c.flags[key].spec.disabled
    && c.flags[key].spec.delivery.Some? && c.flags[key].spec.delivery.value.configMap == Some(d)
  }

  function AfterClean(c: Cluster, key: ObjectKey, listing: seq<ObjectKey>, statusOk: bool): Cluster
    requires forall k | k in listing :: k in c.deployments
  {
    Reconcile(c, key, listing, Faults(Unlimited, statusOk)).cluster
  }

  lemma CleanDeployments(c: Cluster, key: ObjectKey, d: EnvVarDelivery, listing: seq<ObjectKey>, statusOk: bool)
    requires AsksForVariable(c, key, d) && AsSelector(d.selector).Success? && Fits(c, key, listing)
    ensures AfterClean(c, key, listing, statusOk).deployments == map k | k in c.deployments ::
      if k.ns == key.ns && Matches(AsSelector(d.selector).value, c.deployments[k].labels)
      then Inject(c.deployments[k], InjectionFor(key, c.flags[key].spec)) else c.deployments[k]
  {
    var _ := DeliverStands(c, key, c.flags[key].spec, listing, Unlimited);
  }

  /** In a selected Deployment of the flag's namespace every container reads the flag's value under the configured
      name, or under the default one when none is configured. Every other name, and every other Deployment, reads as
      before. */
  lemma VariableArrives(
      c: Cluster, key: ObjectKey, d: EnvVarDelivery, listing: seq<ObjectKey>, statusOk: bool, k: ObjectKey, i: nat,
      name: string)
    requires AsksForVariable(c, key, d) && AsSelector(d.selector).Success? && Fits(c, key, listing)
    requires k in c.deployments && i < |c.deployments[k].containers|
    ensures var r := AfterClean(c, key, listing, statusOk).deployments;
      && r.Keys == c.deployments.Keys
      && |r[k].containers| == |c.deployments[k].containers|
      && r[k].containers[i].name == c.deployments[k].containers[i].name
      && EnvValue(r[k].containers[i].env, name) ==
        if && k.ns == key.ns && Matches(AsSelector(d.selector).value, c.deployments[k].labels)
           && ((d.name != "" && name == d.name) || (d.name == "" && name == FlagNameToEnvVar(key.name)))
        then Some(c.flags[key].spec.defaultValue)
        else EnvValue(c.deployments[k].containers[i].env, name)
  {
    CleanDeployments(c, key, d, listing, statusOk);
    var inj := InjectionFor(key, c.flags[key].spec);
    InjectThenRead(c.deployments[k].containers[i].env, inj.envName, inj.value, name);
  }

  /** What the runs promise of an environment channel: the value, in every container of every selected Deployment of the
      flag's namespace, under the configured name or else the default one. */
  lemma ReadableMeans(c: Cluster, key: ObjectKey, spec: FlagSpec, d: EnvVarDelivery)
    requires spec.delivery.Some? && spec.delivery.value.envVar == Some(d) && AsSelector(d.selector).Success?
    ensures EnvReadable(c, key, spec) <==>
      forall k, i |
        && k in c.deployments && k.ns == key.ns && Matches(AsSelector(d.selector).value, c.deployments[k].labels)
        && 0 <= i < |c.deployments[k].containers| ::
        EnvValue(c.deployments[k].containers[i].env, if d.name == "" then FlagNameToEnvVar(key.name) else d.name)
        == Some(spec.defaultValue)
  {
  }

  /** A Deployment keeps its labels, and its template's annotations but for the tracking one: that one names the flag
      and its value as soon as some container had to change. */
  lemma AnnotationTells(
      c: Cluster, key: ObjectKey, d: EnvVarDelivery, listing: seq<ObjectKey>, statusOk: bool, k: ObjectKey)
    requires AsksForVariable(c, key, d) && AsSelector(d.selector).Success? && Fits(c, key, listing)
    requires k in c.deployments
    ensures var r := AfterClean(c, key, listing, statusOk).deployments;
      k in r &&
      var before, after := c.deployments[k], r[k];
      && after.labels == before.labels
      && after.templateAnnotations ==
        if after.containers == before.containers then before.templateAnnotations
        else before.templateAnnotations["vexil.io/flags-hash" := key.name + "=" + c.flags[key].spec.defaultValue]
  {
    CleanDeployments(c, key, d, listing, statusOk);
  }

  /** Without an environment channel no Deployment changes; neither does one for a flag that is disabled or gone. */
  lemma NoVariableAsked(c: Cluster, key: ObjectKey, a: Attempt)
    requires Fits(c, key, a.listing)
    requires forall d :: !AsksForVariable(c, key, d)
    ensures Try(c, key, a).deployments == c.deployments
  {
    if key in c.flags && !c.flags[key].spec.disabled && HasEnv(c.flags[key].spec) {
      assert AsksForVariable(c, key, c.flags[key].spec.delivery.value.envVar.value);
    }
  }

  /** The named ConfigMap of the flag's namespace: made with the managed label and one entry where there was none,
      else given that entry with its labels and other entries kept. An empty value adds no entry. No other ConfigMap
      changes. */
  lemma ConfigMapArrives(
      c: Cluster, key: ObjectKey, d: ConfigMapDelivery, listing: seq<ObjectKey>, statusOk: bool)
    requires AsksForConfigMap(c, key, d) && Fits(c, key, listing)
    requires c.flags[key].spec.delivery.value.envVar.Some?
      ==> AsSelector(c.flags[key].spec.delivery.value.envVar.value.selector).Success?
    ensures var cmKey, value := ObjectKey(key.ns, d.configMapName), c.flags[key].spec.defaultValue;
      AfterClean(c, key, listing, statusOk).configMaps == c.configMaps[cmKey :=
        if cmKey !in c.configMaps
        then ConfigMap(map["app.kubernetes.io/managed-by" := "vexil"], map[d.key := value])
        else if d.key !in c.configMaps[cmKey].data && value == ""
        then c.configMaps[cmKey]
        else ConfigMap(c.configMaps[cmKey].labels, c.configMaps[cmKey].data[d.key := value])]
  {
    var _ := DeliverStands(c, key, c.flags[key].spec, listing, Unlimited);
    var cmKey := ObjectKey(key.ns, d.configMapName);
    if cmKey in c.configMaps {
      var cm := c.configMaps[cmKey];
      if d.key in cm.data && cm.data[d.key] == c.flags[key].spec.defaultValue {
        assert cm.data == cm.data[d.key := c.flags[key].spec.defaultValue];
      }
    }
  }

  /** Without a ConfigMap channel no ConfigMap changes. */
  lemma NoConfigMapAsked(c: Cluster, key: ObjectKey, a: Attempt)
    requires Fits(c, key, a.listing)
    requires forall d :: !AsksForConfigMap(c, key, d)
    ensures Try(c, key, a).configMaps == c.configMaps
  {
    if key in c.flags && !c.flags[key].spec.disabled && HasConfigMap(c.flags[key].spec) {
      assert AsksForConfigMap(c, key, c.flags[key].spec.delivery.value.configMap.value);
    }
  }

  /** The error and the status of every attempt, whatever fails: it errs exactly if the flag could not be read or its
      status not be written; a status that is written holds the flag's value, and the phase and number of targets. A
      disabled or missing flag makes no other write. */
  lemma StatusTells(c: Cluster, key: ObjectKey, a: Attempt)
    requires Fits(c, key, a.listing)
    ensures var r := Reconcile(c, key, a.listing, a.faults);
      && (r.err <==> a.faults.budget == Limited(0) || (key in c.flags && !a.faults.statusOk))
      && (r.err ==> r.cluster.flags == c.flags)
      && (key in c.flags && !r.err ==>
            var spec, status := c.flags[key].spec, r.cluster.flags[key].status;
            && r.cluster.flags == c.flags[key := FeatureFlag(spec, status)]
            && status.currentValue == spec.defaultValue
            && (status.phase == Disabled <==> spec.disabled)
            && (!spec.disabled ==> status.phase == Active || status.phase == Failed)
            && (status.phase != Active ==> status.targetedWorkloads == 0))
      && (key !in c.flags || c.flags[key].spec.disabled || a.faults.budget == Limited(0) ==>
            r.writes == [] && r.cluster.deployments == c.deployments && r.cluster.configMaps == c.configMaps)
  {
  }

  // ---- How many calls a delivery takes ----------------------------------------------------

  lemma {:induction false} UnlimitedSucceeds(ds: Deployments, listing: seq<ObjectKey>, inj: Injection)
    requires forall k | k in listing :: k in ds
    ensures DeliverListed(ds, listing, inj, Unlimited).ok
    decreases |listing|
  {
    if listing != [] {
      var k := listing[0];
      UnlimitedSucceeds(ds[k := Inject(ds[k], inj)], listing[1..], inj);
      UnlimitedSucceeds(ds, listing[1..], inj);
    }
  }

  /** With so many calls a delivery succeeds exactly if it pays for all its writes; then it differs from the unlimited
      one in what is left only. */
  predicate SpendsAs(all: Delivered<Deployments>, r: Delivered<Deployments>, calls: nat) {
    && (r.ok <==> |all.writes| <= calls)
    && (r.ok ==> r == all.(left := Limited(calls - |all.writes|)))
  }

  /** A delivery after one Deployment more in front, with the update that it needed. */
  function OneFirst(rest: Delivered<Deployments>, updates: seq<Write>): Delivered<Deployments> {
    rest.(targeted := if rest.ok then rest.targeted + 1 else 0, writes := updates + rest.writes)
  }

  lemma OneFirstSpends(all: Delivered<Deployments>, r: Delivered<Deployments>, updates: seq<Write>, calls: nat)
    requires all.ok && |updates| <= calls && SpendsAs(all, r, calls - |updates|)
    ensures SpendsAs(OneFirst(all, updates), OneFirst(r, updates), calls)
  {
  }

  lemma ListedHead(ds: Deployments, listing: seq<ObjectKey>, inj: Injection, budget: Budget)
    requires listing != [] && forall k | k in listing :: k in ds
    ensures var k := listing[0];
      DeliverListed(ds, listing, inj, budget) ==
      if Inject(ds[k], inj) == ds[k] then OneFirst(DeliverListed(ds, listing[1..], inj, budget), [])
      else if budget == Limited(0) then Delivered(ds, false, 0, [], budget)
      else OneFirst(DeliverListed(ds[k := Inject(ds[k], inj)], listing[1..], inj, Spend(budget)), [UpdateDeployment(k)])
  {
  }

  /** The Deployment loop succeeds exactly if every update it needs can be paid for. */
  lemma {:induction false} ListedSpends(ds: Deployments, listing: seq<ObjectKey>, inj: Injection, calls: nat)
    requires forall k | k in listing :: k in ds
    ensures SpendsAs(DeliverListed(ds, listing, inj, Unlimited), DeliverListed(ds, listing, inj, Limited(calls)), calls)
    decreases |listing|
  {
    if listing != [] {
      ListedHead(ds, listing, inj, Unlimited);
      ListedHead(ds, listing, inj, Limited(calls));
      var k, rest := listing[0], listing[1..];
      var ds' := ds[k := Inject(ds[k], inj)];
      if Inject(ds[k], inj) == ds[k] {
        ListedSpends(ds, rest, inj, calls);
        UnlimitedSucceeds(ds, rest, inj);
        OneFirstSpends(DeliverListed(ds, rest, inj, Unlimited), DeliverListed(ds, rest, inj, Limited(calls)),
                       [], calls);
      } else if calls > 0 {
        ListedSpends(ds', rest, inj, calls - 1);
        UnlimitedSucceeds(ds', rest, inj);
        OneFirstSpends(DeliverListed(ds', rest, inj, Unlimited), DeliverListed(ds', rest, inj, Limited(calls - 1)),
                       [UpdateDeployment(k)], calls);
      }
    }
  }

  lemma EnvSpends(ds: Deployments, key: ObjectKey, spec: FlagSpec, listing: seq<ObjectKey>, calls: nat)
    requires Deliverable(spec) && forall k | k in listing :: k in ds
    ensures var all, r := EnvStep(ds, key, spec, listing, Unlimited), EnvStep(ds, key, spec, listing, Limited(calls));
      var needs := |all.writes| + if HasEnv(spec) then 1 else 0;
      && all.ok
      && (r.ok <==> needs <= calls)
      && (r.ok ==> r == all.(left := Limited(calls - needs)))
  {
    if HasEnv(spec) {
      UnlimitedSucceeds(ds, listing, InjectionFor(key, spec));
      if calls > 0 { ListedSpends(ds, listing, InjectionFor(key, spec), calls - 1); }
    }
  }

  lemma ConfigMapSpends(cms: ConfigMaps, key: ObjectKey, spec: FlagSpec, calls: nat)
    ensures var all, r := ConfigMapStep(cms, key, spec, Unlimited), ConfigMapStep(cms, key, spec, Limited(calls));
      var needs := |all.writes| + if HasConfigMap(spec) then 1 else 0;
      && all.ok
      && (r.ok <==> needs <= calls)
      && (r.ok ==> r == all.(left := Limited(calls - needs)))
  {
  }

  lemma DeliverSpends(c: Cluster, key: ObjectKey, spec: FlagSpec, listing: seq<ObjectKey>, calls: nat)
    requires Deliverable(spec) && forall k | k in listing :: k in c.deployments
    ensures var all, r := Deliver(c, key, spec, listing, Unlimited), Deliver(c, key, spec, listing, Limited(calls));
      var needs := |all.writes| + (if HasEnv(spec) then 1 else 0) + (if HasConfigMap(spec) then 1 else 0);
      && all.ok
      && (r.ok <==> needs <= calls)
      && (r.ok ==> r == all.(left := Limited(calls - needs)))
  {
    EnvSpends(c.deployments, key, spec, listing, calls);
    var env := EnvStep(c.deployments, key, spec, listing, Limited(calls));
    ConfigMapSpends(c.configMaps, key, spec, if env.ok then env.left.calls else 0);
  }

  /** The calls that a clean reconcile makes before the status: one get of the flag, one list of the Deployments and
      one get of the ConfigMap where the channels are configured, and its writes. */
  function CallsNeeded(c: Cluster, key: ObjectKey, listing: seq<ObjectKey>): nat
    requires key in c.flags && forall k | k in listing :: k in c.deployments
  {
    var delivery := c.flags[key].spec.delivery;
    1 + (if delivery.Some? && delivery.value.envVar.Some? then 1 else 0)
      + (if delivery.Some? && delivery.value.configMap.Some? then 1 else 0)
      + |Reconcile(c, key, listing, CLEAN).writes|
  }

  lemma EnabledReconcile(c: Cluster, key: ObjectKey, listing: seq<ObjectKey>, budget: Budget)
    requires Enabled(c, key) && budget != Limited(0) && forall k | k in listing :: k in c.deployments
    ensures var spec := c.flags[key].spec;
      var d := Deliver(c, key, spec, listing, Spend(budget));
      Reconcile(c, key, listing, Faults(budget, true)) == Reconciled(
        WithStatus(d.objects, key,
          FlagStatus(if d.ok then Active else Failed, spec.defaultValue, if d.ok then d.targeted else 0), true),
        false, d.writes)
  {
  }

  /** An attempt at a deliverable flag ends active exactly if that many calls succeed. */
  lemma ActiveIffEnoughCalls(c: Cluster, key: ObjectKey, listing: seq<ObjectKey>, calls: nat)
    requires key in c.flags && !c.flags[key].spec.disabled && Deliverable(c.flags[key].spec)
    requires (forall k | k in listing :: k in c.deployments) && calls > 0
    ensures Reconcile(c, key, listing, Faults(Limited(calls), true)).cluster.flags[key].status.phase == Active
      <==> CallsNeeded(c, key, listing) <= calls
  {
    DeliversIffEnough(c, key, listing, calls);
    PhaseTellsOk(c, key, listing, Limited(calls));
  }

  lemma PhaseTellsOk(c: Cluster, key: ObjectKey, listing: seq<ObjectKey>, budget: Budget)
    requires Enabled(c, key) && budget != Limited(0) && forall k | k in listing :: k in c.deployments
    ensures Reconcile(c, key, listing, Faults(budget, true)).cluster.flags[key].status.phase == Active
      <==> Deliver(c, key, c.flags[key].spec, listing, Spend(budget)).ok
  {
  }

  lemma DeliversIffEnough(c: Cluster, key: ObjectKey, listing: seq<ObjectKey>, calls: nat)
    requires Enabled(c, key) && Deliverable(c.flags[key].spec)
    requires (forall k | k in listing :: k in c.deployments) && calls > 0
    ensures Deliver(c, key, c.flags[key].spec, listing, Limited(calls - 1)).ok
      <==> CallsNeeded(c, key, listing) <= calls
  {
    CallsAre(c, key, listing);
    DeliverSpends(c, key, c.flags[key].spec, listing, calls - 1);
  }

  /** And then it has done just what one without any failure does. */
  lemma EnoughCallsSuffice(c: Cluster, key: ObjectKey, listing: seq<ObjectKey>, calls: nat)
    requires key in c.flags && !c.flags[key].spec.disabled && Deliverable(c.flags[key].spec)
    requires (forall k | k in listing :: k in c.deployments) && CallsNeeded(c, key, listing) <= calls
    ensures Reconcile(c, key, listing, Faults(Limited(calls), true)) == Reconcile(c, key, listing, CLEAN)
  {
    CallsAre(c, key, listing);
    DeliverSpends(c, key, c.flags[key].spec, listing, calls - 1);
    SameDelivery(c, key, listing, Limited(calls), Unlimited);
  }

  lemma SameDelivery(c: Cluster, key: ObjectKey, listing: seq<ObjectKey>, a: Budget, b: Budget)
    requires Enabled(c, key) && a != Limited(0) && b != Limited(0) && forall k | k in listing :: k in c.deployments
    requires var spec := c.flags[key].spec;
      var x, y := Deliver(c, key, spec, listing, Spend(a)), Deliver(c, key, spec, listing, Spend(b));
      x.objects == y.objects && x.ok == y.ok && x.targeted == y.targeted && x.writes == y.writes
    ensures Reconcile(c, key, listing, Faults(a, true)) == Reconcile(c, key, listing, Faults(b, true))
  {
  }

  lemma CallsAre(c: Cluster, key: ObjectKey, listing: seq<ObjectKey>)
    requires Enabled(c, key) && forall k | k in listing :: k in c.deployments
    ensures var spec := c.flags[key].spec;
      CallsNeeded(c, key, listing) == 1 + |Deliver(c, key, spec, listing, Unlimited).writes|
        + (if HasEnv(spec) then 1 else 0) + (if HasConfigMap(spec) then 1 else 0)
  {
    EnabledReconcile(c, key, listing, Unlimited);
  }

  // ---- Which writes a clean reconcile makes -----------------------------------------------

  lemma {:induction false} UpdatesTell(ds: Deployments, listing: seq<ObjectKey>, inj: Injection, w: Write)
    requires forall k | k in listing :: k in ds
    ensures w in Updates(ds, listing, inj)
      <==> w.UpdateDeployment? && w.key in listing && Inject(ds[w.key], inj) != ds[w.key]
  {
    if listing != [] { UpdatesTell(ds, listing[1..], inj, w); }
  }

  lemma EnvWrites(ds: Deployments, key: ObjectKey, spec: FlagSpec, listing: seq<ObjectKey>, w: Write)
    requires Lists(listing, Targets(ds, key, spec))
    ensures var r := EnvStep(ds, key, spec, listing, Unlimited);
      && r.objects.Keys == ds.Keys
      && (w in r.writes <==> w.UpdateDeployment? && w.key in ds && r.objects[w.key] != ds[w.key])
  {
    var _ := EnvStands(ds, key, spec, listing, Unlimited);
    if HasEnv(spec) && Deliverable(spec) {
      var inj := InjectionFor(key, spec);
      var at := DeliverListedCut(ds, listing, inj, Unlimited);
      UnlimitedSucceeds(ds, listing, inj);
      assert listing[..|listing|] == listing;
      UpdatesTell(ds, listing, inj, w);
    }
  }

  lemma ConfigMapWrites(cms: ConfigMaps, key: ObjectKey, spec: FlagSpec, w: Write)
    ensures var r := ConfigMapStep(cms, key, spec, Unlimited).objects;
      w in ConfigMapStep(cms, key, spec, Unlimited).writes
        <==>
        ((w.CreateConfigMap? && w.key in r && w.key !in cms)
         || (w.UpdateConfigMap? && w.key in cms && w.key in r && r[w.key] != cms[w.key]))
  {
    if HasConfigMap(spec) {
      var d := spec.delivery.value.configMap.value;
      var cmKey := ObjectKey(key.ns, d.configMapName);
      if cmKey in cms && ReadData(cms[cmKey].data, d.key) != spec.defaultValue {
        assert ReadData(cms[cmKey].data[d.key := spec.defaultValue], d.key) == spec.defaultValue;
      }
    }
  }

  /** A clean reconcile writes exactly what it changes: one kind of write for each object that differs afterwards. */
  lemma WritesTell(c: Cluster, key: ObjectKey, listing: seq<ObjectKey>, w: Write)
    requires Fits(c, key, listing)
    ensures var r := Reconcile(c, key, listing, CLEAN);
      w in r.writes <==>
        match w
        case UpdateDeployment(k) =>
          k in c.deployments && k in r.cluster.deployments && r.cluster.deployments[k] != c.deployments[k]
        case CreateConfigMap(k) => k in r.cluster.configMaps && k !in c.configMaps
        case UpdateConfigMap(k) =>
          k in c.configMaps && k in r.cluster.configMaps && r.cluster.configMaps[k] != c.configMaps[k]
  {
    if Enabled(c, key) {
      var spec := c.flags[key].spec;
      var _ := EnvStands(c.deployments, key, spec, listing, Unlimited);
      EnvWrites(c.deployments, key, spec, listing, w);
      ConfigMapWrites(c.configMaps, key, spec, w);
      ConfigMapStands(c.configMaps, key, spec, Unlimited);
    }
  }
}
