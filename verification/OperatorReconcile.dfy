/** One reconcile as a whole: what a clean one achieves, what a failed one leaves for the retry,
    what a second one changes, and what no reconcile ever touches. */
module OperatorReconcile {
  import opened Results
  import opened LabelSelectors
  import opened FeatureFlags
  import opened OperatorSpec
  import opened OperatorDelivery

  /** An enabled flag can be delivered unless it asks for environment variables with an invalid selector:
      the environment step then fails before the ConfigMap step is reached. */
  predicate Deliverable(spec: FlagSpec) {
    spec.delivery.Some? && spec.delivery.value.envVar.Some? ==>
      AsSelector(spec.delivery.value.envVar.value.selector).Success?
  }

  function InjectionFor(key: ObjectKey, spec: FlagSpec): Injection
    requires HasEnv(spec)
  {
    InjectionOf(spec.delivery.value.envVar.value, key, spec)
  }

  // ---- What the code is for, said without the code ----------------------------------------

  ghost predicate EnvReadable(c: Cluster, key: ObjectKey, spec: FlagSpec) {
    HasEnv(spec) ==>
      forall k | k in Targets(c.deployments, key, spec) ::
        AllRead(c.deployments[k].containers, InjectionFor(key, spec).envName, spec.defaultValue)
  }

  ghost predicate ConfigMapReadable(c: Cluster, key: ObjectKey, spec: FlagSpec) {
    HasConfigMap(spec) ==>
      var d := spec.delivery.value.configMap.value;
      var cmKey := ObjectKey(key.ns, d.configMapName);
      cmKey in c.configMaps && ReadData(c.configMaps[cmKey].data, d.key) == spec.defaultValue
  }

  /** The value is readable in every container of every selected Deployment and in the ConfigMap. */
  ghost predicate Readable(c: Cluster, key: ObjectKey, spec: FlagSpec) {
    EnvReadable(c, key, spec) && ConfigMapReadable(c, key, spec)
  }

  // ---- Small facts about listings and partial delivery ------------------------------------

  lemma {:induction false} ListingSize(listing: seq<ObjectKey>, keys: set<ObjectKey>)
    requires Lists(listing, keys)
    ensures |listing| == |keys|
    decreases |listing|
  {
    if listing == [] {
      assert keys == {};
    } else {
      var k := listing[0];
      assert k in keys;
      forall x ensures x in listing[1..] <==> x in keys - {k} {
        if x in listing[1..] { var i :| 0 <= i < |listing[1..]| && listing[1..][i] == x; assert listing[i + 1] == x; }
        if x in keys - {k} {
          assert x in listing;
          var i :| 0 <= i < |listing| && listing[i] == x;
          assert listing[1..][i - 1] == x;
        }
      }
      ListingSize(listing[1..], keys - {k});
    }
  }

  lemma TouchKeepsTargets(ds: Deployments, keys: set<ObjectKey>, inj: Injection, key: ObjectKey, spec: FlagSpec)
    ensures Targets(Touch(ds, keys, inj), key, spec) == Targets(ds, key, spec)
  {
    forall k | k in ds ensures Touch(ds, keys, inj)[k].labels == ds[k].labels {
      InjectDeployment(ds[k], inj);
    }
  }

  lemma TouchTwice(ds: Deployments, some: set<ObjectKey>, all: set<ObjectKey>, inj: Injection)
    requires some <= all
    ensures Touch(Touch(ds, some, inj), all, inj) == Touch(ds, all, inj)
  {
    forall k | k in ds
      ensures Touch(Touch(ds, some, inj), all, inj)[k] == Touch(ds, all, inj)[k]
    {
      InjectDeployment(ds[k], inj);
    }
  }

  // ---- The closed form of a delivery ------------------------------------------------------

  /** The Deployments after the environment step has reached some of its targets. */
  function EnvDone(ds: Deployments, key: ObjectKey, spec: FlagSpec, reached: set<ObjectKey>): Deployments {
    if HasEnv(spec) then Touch(ds, reached, InjectionFor(key, spec)) else ds
  }

  /** The ConfigMaps after the ConfigMap step. */
  function ConfigMapDone(cms: ConfigMaps, key: ObjectKey, spec: FlagSpec): ConfigMaps {
    ConfigMapStep(cms, key, spec, Unlimited).objects
  }

  /** How far a delivery got: part of the Deployments, or all of them and then perhaps the ConfigMap. */
  ghost predicate StandsAt(c: Cluster, key: ObjectKey, spec: FlagSpec, reached: set<ObjectKey>, r: Cluster) {
    && reached <= Targets(c.deployments, key, spec)
    && r.flags == c.flags
    && r.deployments == EnvDone(c.deployments, key, spec, reached)
    && (r.configMaps == c.configMaps
        || (Deliverable(spec)
            && reached == Targets(c.deployments, key, spec)
            && r.configMaps == ConfigMapDone(c.configMaps, key, spec)))
  }

  lemma EnvStands(ds: Deployments, key: ObjectKey, spec: FlagSpec, listing: seq<ObjectKey>, budget: Budget)
    returns (reached: set<ObjectKey>)
    requires Lists(listing, Targets(ds, key, spec))
    ensures var d := EnvStep(ds, key, spec, listing, budget);
      && reached <= Targets(ds, key, spec)
      && d.objects == EnvDone(ds, key, spec, reached)
      && (d.ok ==> Deliverable(spec) && d.targeted == |Targets(ds, key, spec)| && reached == Targets(ds, key, spec))
      && (budget.Unlimited? && Deliverable(spec) ==> d.ok)
  {
    reached := {};
    if HasEnv(spec) {
      var inj := InjectionFor(key, spec);
      assert Touch(ds, {}, inj) == ds;
      if Deliverable(spec) && budget != Limited(0) {
        ListingSize(listing, Targets(ds, key, spec));
        var at := DeliverListedCut(ds, listing, inj, Spend(budget));
        reached := KeySet(listing[..at]);
        assert listing[..|listing|] == listing;
        assert KeySet(listing) == Targets(ds, key, spec);
      }
    }
  }

  lemma ConfigMapStands(cms: ConfigMaps, key: ObjectKey, spec: FlagSpec, budget: Budget)
    ensures var d := ConfigMapStep(cms, key, spec, budget);
      && d.objects in {cms, ConfigMapDone(cms, key, spec)}
      && (d.ok ==> d.objects == ConfigMapDone(cms, key, spec))
      && (budget.Unlimited? ==> d.ok)
  {
  }

  lemma DeliverStands(c: Cluster, key: ObjectKey, spec: FlagSpec, listing: seq<ObjectKey>, budget: Budget)
    returns (reached: set<ObjectKey>)
    requires Lists(listing, Targets(c.deployments, key, spec))
    ensures var d := Deliver(c, key, spec, listing, budget);
      && StandsAt(c, key, spec, reached, d.objects)
      && (d.ok ==>
           && Deliverable(spec)
           && d.targeted == |Targets(c.deployments, key, spec)|
           && reached == Targets(c.deployments, key, spec)
           && d.objects.configMaps == ConfigMapDone(c.configMaps, key, spec))
      && (budget.Unlimited? && Deliverable(spec) ==> d.ok)
  {
    reached := EnvStands(c.deployments, key, spec, listing, budget);
    ConfigMapStands(c.configMaps, key, spec, EnvStep(c.deployments, key, spec, listing, budget).left);
  }

  // ---- Main results for one reconcile -----------------------------------------------------

  const CLEAN := Faults(Unlimited, true)

  ghost predicate Enabled(c: Cluster, key: ObjectKey) {
    key in c.flags && !c.flags[key].spec.disabled
  }

  lemma DeliveredIsReadable(c: Cluster, r: Cluster, key: ObjectKey, spec: FlagSpec)
    requires r.deployments == EnvDone(c.deployments, key, spec, Targets(c.deployments, key, spec))
    ensures EnvReadable(r, key, spec)
    ensures r.configMaps == ConfigMapDone(c.configMaps, key, spec) ==> ConfigMapReadable(r, key, spec)
    ensures r.configMaps == c.configMaps ==> (ConfigMapReadable(r, key, spec) <==> ConfigMapReadable(c, key, spec))
  {
    if HasEnv(spec) {
      var inj := InjectionFor(key, spec);
      TouchKeepsTargets(c.deployments, Targets(c.deployments, key, spec), inj, key, spec);
      forall k | k in Targets(c.deployments, key, spec)
        ensures AllRead(r.deployments[k].containers, inj.envName, spec.defaultValue)
      {
        InjectDeployment(c.deployments[k], inj);
      }
    }
  }

  /** A reconcile of an enabled flag without delivery failure makes the value readable exactly when the flag's
      environment selector is valid or the ConfigMap already held the value; its phase tells which. */
  lemma CleanReconcileDelivers(c: Cluster, key: ObjectKey, listing: seq<ObjectKey>, statusOk: bool)
    requires Enabled(c, key) && Fits(c, key, listing)
    ensures var spec := c.flags[key].spec;
      var r := Reconcile(c, key, listing, Faults(Unlimited, statusOk)).cluster;
      && (Readable(r, key, spec) <==> Deliverable(spec) || ConfigMapReadable(c, key, spec))
      && (statusOk ==> (r.flags[key].status.phase == Active <==> Deliverable(spec)))
      && (statusOk && Deliverable(spec) ==>
            r.flags[key].status.targetedWorkloads == |Targets(c.deployments, key, spec)|)
  {
    var spec := c.flags[key].spec;
    var reached := DeliverStands(c, key, spec, listing, Unlimited);
    var r := Reconcile(c, key, listing, Faults(Unlimited, statusOk)).cluster;
    assert r.deployments == EnvDone(c.deployments, key, spec, Targets(c.deployments, key, spec));
    DeliveredIsReadable(c, r, key, spec);
  }

  /** The ConfigMap really is missed: the flag below has an invalid environment selector and asks for a ConfigMap. */
  lemma InvalidSelectorSkipsConfigMap()
    ensures exists c: Cluster, key: ObjectKey ::
      && Enabled(c, key) && Fits(c, key, [])
      && !ConfigMapReadable(Reconcile(c, key, [], CLEAN).cluster, key, c.flags[key].spec)
  {
    var bad := LabelSelector(map[], [Requirement("app", In, [])], true);
    var spec := FlagSpec("", String, "on", "",
      Some(Delivery(Some(EnvVarDelivery("", Some(bad))), Some(ConfigMapDelivery("flags", "f", None)), None)), false,
      LIFECYCLE_ACTIVE);
    var key := ObjectKey("prod", "f");
    var c := Cluster(map[key := FeatureFlag(spec, EMPTY_STATUS)], map[], map[]);
    assert bad.matchExpressions[0] == Requirement("app", In, []) && !ValidRequirement(bad.matchExpressions[0]);
    assert AsSelector(Some(bad)).Failure?;
    CleanReconcileDelivers(c, key, [], true);
    assert Reconcile(c, key, [], CLEAN).cluster.configMaps == map[];
  }

  /** An attempt at reconciling, with its own listing order and fault pattern. */
  datatype Attempt = Attempt(listing: seq<ObjectKey>, faults: Faults)

  function Try(c: Cluster, key: ObjectKey, a: Attempt): Cluster
    requires forall k | k in a.listing :: k in c.deployments
  {
    Reconcile(c, key, a.listing, a.faults).cluster
  }

  /** Everything an attempt can change is where its delivery stands, and the flag's own status. */
  lemma TryStands(c: Cluster, key: ObjectKey, a: Attempt) returns (reached: set<ObjectKey>)
    requires Enabled(c, key) && Fits(c, key, a.listing)
    ensures StandsAt(c, key, c.flags[key].spec, reached, Try(c, key, a).(flags := c.flags))
    ensures Try(c, key, a).flags.Keys == c.flags.Keys
    ensures forall k | k in c.flags :: Try(c, key, a).flags[k].spec == c.flags[k].spec
    ensures forall k | k in c.flags && k != key :: Try(c, key, a).flags[k] == c.flags[k]
  {
    var spec := c.flags[key].spec;
    if a.faults.budget == Limited(0) {
      reached := {};
      if HasEnv(spec) { assert Touch(c.deployments, {}, InjectionFor(key, spec)) == c.deployments; }
    } else {
      reached := DeliverStands(c, key, spec, a.listing, Spend(a.faults.budget));
    }
  }

  /** Resuming from a partial delivery ends where delivering from the start ends. */
  lemma ResumeReaches(c: Cluster, c1: Cluster, key: ObjectKey, spec: FlagSpec, reached: set<ObjectKey>)
    requires StandsAt(c, key, spec, reached, c1.(flags := c.flags))
    ensures Targets(c1.deployments, key, spec) == Targets(c.deployments, key, spec)
    ensures EnvDone(c1.deployments, key, spec, Targets(c.deployments, key, spec))
         == EnvDone(c.deployments, key, spec, Targets(c.deployments, key, spec))
    ensures ConfigMapDone(c1.configMaps, key, spec) == ConfigMapDone(c.configMaps, key, spec)
    ensures !Deliverable(spec) ==> c1.configMaps == c.configMaps
  {
    if HasEnv(spec) {
      var inj := InjectionFor(key, spec);
      TouchKeepsTargets(c.deployments, reached, inj, key, spec);
      TouchTwice(c.deployments, reached, Targets(c.deployments, key, spec), inj);
    }
  }

  /** The state that one clean reconcile reaches, with no mention of listings. */
  ghost function CleanState(c: Cluster, key: ObjectKey): Cluster
    requires Enabled(c, key)
  {
    var spec := c.flags[key].spec;
    var all := Targets(c.deployments, key, spec);
    var status := if Deliverable(spec) then FlagStatus(Active, spec.defaultValue, |all|)
                  else FlagStatus(Failed, spec.defaultValue, 0);
    Cluster(c.flags[key := FeatureFlag(spec, status)],
            EnvDone(c.deployments, key, spec, all),
            if Deliverable(spec) then ConfigMapDone(c.configMaps, key, spec) else c.configMaps)
  }

  lemma CleanReconcileClosedForm(c: Cluster, key: ObjectKey, listing: seq<ObjectKey>)
    requires Enabled(c, key) && Fits(c, key, listing)
    ensures Reconcile(c, key, listing, CLEAN).cluster == CleanState(c, key)
  {
    var _ := DeliverStands(c, key, c.flags[key].spec, listing, Unlimited);
  }

  lemma SameCleanState(c: Cluster, c1: Cluster, key: ObjectKey, reached: set<ObjectKey>)
    requires Enabled(c, key) && StandsAt(c, key, c.flags[key].spec, reached, c1.(flags := c.flags))
    requires c1.flags.Keys == c.flags.Keys && c1.flags[key].spec == c.flags[key].spec
    requires forall k | k in c.flags && k != key :: c1.flags[k] == c.flags[k]
    ensures CleanState(c1, key) == CleanState(c, key)
  {
    ResumeReaches(c, c1, key, c.flags[key].spec, reached);
    var done := CleanState(c, key).flags;
    assert c1.flags[key := done[key]] == c.flags[key := done[key]];
  }

  /** Retrying after a partial failure: Deployments, annotations, ConfigMaps and status all end up where one clean
      reconcile from the start would have put them, whatever the listing orders. */
  lemma RetryReachesCleanState(
      c: Cluster, key: ObjectKey, first: Attempt, again: seq<ObjectKey>, direct: seq<ObjectKey>)
    requires Fits(c, key, first.listing) && Fits(c, key, direct) && Fits(Try(c, key, first), key, again)
    ensures Reconcile(Try(c, key, first), key, again, CLEAN).cluster == Reconcile(c, key, direct, CLEAN).cluster
  {
    if Enabled(c, key) {
      var reached := TryStands(c, key, first);
      SameCleanState(c, Try(c, key, first), key, reached);
      CleanReconcileClosedForm(c, key, direct);
      CleanReconcileClosedForm(Try(c, key, first), key, again);
    } else {
      DisabledRetry(c, key, first, again, direct);
    }
  }

  lemma DisabledRetry(c: Cluster, key: ObjectKey, first: Attempt, again: seq<ObjectKey>, direct: seq<ObjectKey>)
    requires !Enabled(c, key)
    requires Fits(c, key, first.listing) && Fits(c, key, direct) && Fits(Try(c, key, first), key, again)
    ensures Try(c, key, first).deployments == c.deployments && Try(c, key, first).configMaps == c.configMaps
    ensures Reconcile(Try(c, key, first), key, again, CLEAN).cluster == Reconcile(c, key, direct, CLEAN).cluster
  {
    if key in c.flags {
      var done := Reconcile(c, key, direct, CLEAN).cluster.flags;
      assert Try(c, key, first).flags[key := done[key]] == c.flags[key := done[key]];
    }
  }

  // ---- Any number of attempts -------------------------------------------------------------

  ghost predicate FitAll(c: Cluster, key: ObjectKey, attempts: seq<Attempt>)
    decreases |attempts|
  {
    attempts == [] ||
    (Fits(c, key, attempts[0].listing) && FitAll(Try(c, key, attempts[0]), key, attempts[1..]))
  }

  ghost function TryAll(c: Cluster, key: ObjectKey, attempts: seq<Attempt>): Cluster
    requires FitAll(c, key, attempts)
    decreases |attempts|
  {
    if attempts == [] then c else TryAll(Try(c, key, attempts[0]), key, attempts[1..])
  }

  /** A listing that fits the cluster still fits after an attempt: reconciling changes no label. */
  lemma FitsAfter(c: Cluster, key: ObjectKey, a: Attempt, listing: seq<ObjectKey>)
    requires Fits(c, key, a.listing) && Fits(c, key, listing)
    ensures Fits(Try(c, key, a), key, listing)
  {
    if Enabled(c, key) {
      var reached := TryStands(c, key, a);
      ResumeReaches(c, Try(c, key, a), key, c.flags[key].spec, reached);
    }
  }

  /** Any number of failing attempts, then one clean reconcile. */
  lemma {:induction false} RetriesReachCleanState(
      c: Cluster, key: ObjectKey, attempts: seq<Attempt>, again: seq<ObjectKey>, direct: seq<ObjectKey>)
    requires FitAll(c, key, attempts) && Fits(TryAll(c, key, attempts), key, again) && Fits(c, key, direct)
    ensures Reconcile(TryAll(c, key, attempts), key, again, CLEAN).cluster == Reconcile(c, key, direct, CLEAN).cluster
    decreases |attempts|
  {
    if attempts == [] {
      RetryReachesCleanState(c, key, Attempt(direct, Faults(Limited(0), false)), again, direct);
    } else {
      var a := attempts[0];
      FitsAfter(c, key, a, direct);
      RetriesReachCleanState(Try(c, key, a), key, attempts[1..], again, direct);
      RetryReachesCleanState(c, key, a, direct, direct);
    }
  }

  // ---- Idempotence and framing ------------------------------------------------------------

  lemma {:induction false} NothingToUpdate(ds: Deployments, listing: seq<ObjectKey>, inj: Injection, budget: Budget)
    requires forall k | k in listing :: k in ds && Inject(ds[k], inj) == ds[k]
    ensures DeliverListed(ds, listing, inj, budget).writes == []
    ensures DeliverListed(ds, listing, inj, budget).objects == ds
  {
    if listing != [] { NothingToUpdate(ds, listing[1..], inj, budget); }
  }

  lemma NothingToDeliver(c: Cluster, key: ObjectKey, spec: FlagSpec, listing: seq<ObjectKey>, budget: Budget)
    requires Lists(listing, Targets(c.deployments, key, spec))
    requires Deliverable(spec) ==> Readable(c, key, spec)
    ensures var d := Deliver(c, key, spec, listing, budget); d.writes == [] && d.objects == c
  {
    if HasEnv(spec) && Deliverable(spec) {
      var inj := InjectionFor(key, spec);
      forall k | k in listing ensures Inject(c.deployments[k], inj) == c.deployments[k] {
        InjectDeployment(c.deployments[k], inj);
      }
      NothingToUpdate(c.deployments, listing, inj, Spend(budget));
    }
  }

  /** After a clean reconcile, a second one writes no Deployment and no ConfigMap, even one that meets failures. */
  lemma SecondReconcileWritesNothing(c: Cluster, key: ObjectKey, first: seq<ObjectKey>, second: Attempt)
    requires Fits(c, key, first) && Fits(Reconcile(c, key, first, CLEAN).cluster, key, second.listing)
    ensures var c1 := Reconcile(c, key, first, CLEAN).cluster;
      var r := Reconcile(c1, key, second.listing, second.faults);
      r.writes == [] && r.cluster.deployments == c1.deployments && r.cluster.configMaps == c1.configMaps
  {
    if Enabled(c, key) {
      var c1 := Reconcile(c, key, first, CLEAN).cluster;
      CleanReconcileDelivers(c, key, first, true);
      CleanReconcileClosedForm(c, key, first);
      NothingToDeliver(c1, key, c.flags[key].spec, second.listing, Spend(second.faults.budget));
    }
  }

  lemma DeploymentFrame(c: Cluster, key: ObjectKey, a: Attempt)
    requires Fits(c, key, a.listing)
    ensures var r := Try(c, key, a);
      && r.deployments.Keys == c.deployments.Keys
      && (forall k | k in c.deployments && r.deployments[k] != c.deployments[k] ::
            && Enabled(c, key) && HasEnv(c.flags[key].spec)
            && k.ns == key.ns && k in Targets(c.deployments, key, c.flags[key].spec)
            && r.deployments[k] == Inject(c.deployments[k], InjectionFor(key, c.flags[key].spec)))
  {
    if Enabled(c, key) {
      var reached := TryStands(c, key, a);
    }
  }

  /** The only ConfigMaps entry that differs is the flag's own, and in it only the flag's own key. */
  ghost predicate OnlyOwnEntry(cms: ConfigMaps, r: ConfigMaps, key: ObjectKey, d: ConfigMapDelivery) {
    && cms.Keys <= r.Keys
    && (forall k | k in r && (k !in cms || r[k] != cms[k]) ::
          && k == ObjectKey(key.ns, d.configMapName)
          && (k in cms ==> r[k].labels == cms[k].labels)
          && (forall x | x != d.key :: ReadData(r[k].data, x) == if k in cms then ReadData(cms[k].data, x) else ""))
  }

  lemma ConfigMapDoneFrame(cms: ConfigMaps, key: ObjectKey, spec: FlagSpec)
    ensures if HasConfigMap(spec)
      then OnlyOwnEntry(cms, ConfigMapDone(cms, key, spec), key, spec.delivery.value.configMap.value)
      else ConfigMapDone(cms, key, spec) == cms
  {
  }

  lemma ConfigMapFrame(c: Cluster, key: ObjectKey, a: Attempt)
    requires Fits(c, key, a.listing)
    ensures Try(c, key, a).configMaps != c.configMaps ==>
      && Enabled(c, key) && HasConfigMap(c.flags[key].spec)
      && OnlyOwnEntry(c.configMaps, Try(c, key, a).configMaps, key, c.flags[key].spec.delivery.value.configMap.value)
  {
    if Enabled(c, key) {
      var reached := TryStands(c, key, a);
      ConfigMapDoneFrame(c.configMaps, key, c.flags[key].spec);
    }
  }

  /** What no attempt touches: Deployments that are unselected or in another namespace, every environment name but
      the flag's own, every ConfigMap but the flag's own, every other key of that one, and every other flag. */
  lemma ReconcileFrame(c: Cluster, key: ObjectKey, a: Attempt)
    requires Fits(c, key, a.listing)
    ensures var r := Try(c, key, a);
      && r.deployments.Keys == c.deployments.Keys
      && (forall k | k in c.deployments && r.deployments[k] != c.deployments[k] ::
            && Enabled(c, key) && HasEnv(c.flags[key].spec)
            && k.ns == key.ns && k in Targets(c.deployments, key, c.flags[key].spec)
            && r.deployments[k] == Inject(c.deployments[k], InjectionFor(key, c.flags[key].spec)))
      && (r.configMaps != c.configMaps ==>
            && Enabled(c, key) && HasConfigMap(c.flags[key].spec)
            && OnlyOwnEntry(c.configMaps, r.configMaps, key, c.flags[key].spec.delivery.value.configMap.value))
      && r.flags.Keys == c.flags.Keys
      && (forall k | k in c.flags :: r.flags[k].spec == c.flags[k].spec)
      && (forall k | k in c.flags && k != key :: r.flags[k] == c.flags[k])
  {
    DeploymentFrame(c, key, a);
    ConfigMapFrame(c, key, a);
    if Enabled(c, key) {
      var reached := TryStands(c, key, a);
    }
  }
}
