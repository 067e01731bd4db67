/** The operator as it runs: an API server whose calls may fail, and the reconciler's nested update loops.
    Every method is proved against the functions of OperatorSpec. */
module Reconciler {
  import opened Results
  import opened LabelSelectors
  import opened FeatureFlags
  import opened OperatorSpec
  import OperatorDelivery

  datatype ApiError = NotFound | CallFailed

  datatype Item = Item(key: ObjectKey, deployment: Deployment)

  /** The Kubernetes API server: atomic calls that may fail, and then change nothing. */
  class ApiServer {
    var state: Cluster
    var budget: Budget
    var statusOk: bool
    var writes: seq<Write>

    constructor (state: Cluster, faults: Faults)
      ensures this.state == state && writes == [] && budget == faults.budget && statusOk == faults.statusOk
    {
      this.state := state;
      this.budget := faults.budget;
      this.statusOk := faults.statusOk;
      this.writes := [];
    }

    method Call() returns (ok: bool)
      modifies this`budget
      ensures ok == (old(budget) != Limited(0)) && budget == Spend(old(budget))
    {
      ok := budget != Limited(0);
      budget := Spend(budget);
    }

    method GetFlag(key: ObjectKey) returns (r: Result<FeatureFlag, ApiError>)
      modifies this`budget
      ensures budget == Spend(old(budget))
      ensures r == if old(budget) == Limited(0) then Failure(CallFailed)
                   else if key in state.flags then Success(state.flags[key]) else Failure(NotFound)
    {
      var ok := Call();
      if !ok { return Failure(CallFailed); }
      if key !in state.flags { return Failure(NotFound); }
      return Success(state.flags[key]);
    }

    /** The order of the answer is up to the server. */
    method ListDeployments(ns: string, selector: Selector)
      returns (r: Result<seq<Item>, ApiError>, ghost listing: seq<ObjectKey>)
      modifies this`budget
      ensures budget == Spend(old(budget))
      ensures r.Failure? <==> old(budget) == Limited(0)
      ensures Lists(listing, Selected(state.deployments, ns, selector))
      ensures r.Success? ==>
        && |r.value| == |listing|
        && forall i | 0 <= i < |listing| ::
             && r.value[i].key == listing[i]
             && listing[i] in state.deployments && r.value[i].deployment == state.deployments[listing[i]]
    {
      var ok := Call();
      var items: seq<Item> := [];
      listing := [];
      var rest := state.deployments.Keys;
      while rest != {}
        invariant rest <= state.deployments.Keys
        invariant Distinct(listing)
        invariant forall k :: k in listing <==> k in Selected(state.deployments, ns, selector) && k !in rest
        invariant |items| == |listing|
        invariant forall i | 0 <= i < |listing| ::
          && items[i].key == listing[i]
          && listing[i] in state.deployments && items[i].deployment == state.deployments[listing[i]]
        decreases rest
      {
        var k :| k in rest;
        if k.ns == ns && Matches(selector, state.deployments[k].labels) {
          assert k !in listing;
          items := items + [Item(k, state.deployments[k])];
          listing := listing + [k];
        }
        rest := rest - {k};
      }
      r := if ok then Success(items) else Failure(CallFailed);
    }

    method UpdateDeployment(key: ObjectKey, d: Deployment) returns (ok: bool)
      requires key in state.deployments
      modifies this`state, this`budget, this`writes
      ensures ok == (old(budget) != Limited(0)) && budget == Spend(old(budget))
      ensures state == if ok then old(state).(deployments := old(state.deployments)[key := d]) else old(state)
      ensures writes == if ok then old(writes) + [Write.UpdateDeployment(key)] else old(writes)
    {
      ok := Call();
      if ok {
        state := state.(deployments := state.deployments[key := d]);
        writes := writes + [Write.UpdateDeployment(key)];
      }
    }

    method GetConfigMap(key: ObjectKey) returns (r: Result<ConfigMap, ApiError>)
      modifies this`budget
      ensures budget == Spend(old(budget))
      ensures r == if old(budget) == Limited(0) then Failure(CallFailed)
                   else if key in state.configMaps then Success(state.configMaps[key]) else Failure(NotFound)
    {
      var ok := Call();
      if !ok { return Failure(CallFailed); }
      if key !in state.configMaps { return Failure(NotFound); }
      return Success(state.configMaps[key]);
    }

    method PutConfigMap(key: ObjectKey, cm: ConfigMap) returns (ok: bool)
      modifies this`state, this`budget, this`writes
      ensures ok == (old(budget) != Limited(0)) && budget == Spend(old(budget))
      ensures state == if ok then old(state).(configMaps := old(state.configMaps)[key := cm]) else old(state)
      ensures writes == old(writes) +
        (if !ok then [] else [if key in old(state.configMaps) then UpdateConfigMap(key) else CreateConfigMap(key)])
    {
      ok := Call();
      if ok {
        writes := writes + [if key in state.configMaps then UpdateConfigMap(key) else CreateConfigMap(key)];
        state := state.(configMaps := state.configMaps[key := cm]);
      }
    }

    method UpdateStatus(key: ObjectKey, status: FlagStatus) returns (err: bool)
      requires key in state.flags
      modifies this`state
      ensures err == !statusOk && state == WithStatus(old(state), key, status, statusOk)
    {
      if statusOk {
        state := state.(flags := state.flags[key := state.flags[key].(status := status)]);
      }
      err := !statusOk;
    }
  }

  class FeatureFlagReconciler {
    const server: ApiServer

    constructor (server: ApiServer)
      ensures this.server == server
    {
      this.server := server;
    }

    /** The innermost loop, over the environment of one container. */
    method InjectContainer(env: seq<EnvVar>, envName: string, value: string) returns (r: seq<EnvVar>, updated: bool)
      ensures r == InjectEnv(env, envName, value)
      ensures updated <==> r != env
    {
      r := env;
      updated := false;
      var found := false;
      var ei := 0;
      while ei < |r|
        invariant 0 <= ei <= |env| && r == env && !updated && !found
        invariant forall j | 0 <= j < ei :: env[j].name != envName
      {
        if r[ei].name == envName {
          assert FirstIndex(env, envName) == ei by { OperatorDelivery.FirstIndexUnique(env, envName, ei); }
          if r[ei].value != value {
            r := r[ei := r[ei].(value := value)];
            updated := true;
            assert r[ei] != env[ei];
          } else {
            assert env[ei].(value := value) == env[ei];
          }
          found := true;
          break;
        }
        ei := ei + 1;
      }
      if !found {
        assert FirstIndex(env, envName) == |env| by { OperatorDelivery.FirstIndexUnique(env, envName, |env|); }
        r := r + [EnvVar(envName, value, None)];
        updated := true;
      }
    }

    /** The middle loop, over the containers of one Deployment, and the tracking annotation. */
    method InjectContainers(d: Deployment, inj: Injection) returns (deploy: Deployment, updated: bool)
      ensures deploy == Inject(d, inj)
      ensures updated <==> deploy != d
    {
      deploy := d;
      updated := false;
      ghost var done := InjectAll(d.containers, inj.envName, inj.value);
      for ci := 0 to |deploy.containers|
        invariant |deploy.containers| == |d.containers| && deploy == d.(containers := deploy.containers)
        invariant forall i | 0 <= i < ci :: deploy.containers[i] == done[i]
        invariant forall i | ci <= i < |d.containers| :: deploy.containers[i] == d.containers[i]
        invariant updated <==> exists i :: 0 <= i < ci && done[i] != d.containers[i]
      {
        var env, changed := InjectContainer(deploy.containers[ci].env, inj.envName, inj.value);
        deploy := deploy.(containers := deploy.containers[ci := deploy.containers[ci].(env := env)]);
        updated := updated || changed;
      }
      assert deploy.containers == done;
      if updated {
        deploy := deploy.(templateAnnotations :=
          deploy.templateAnnotations[HASH_ANNOTATION := inj.flagName + "=" + inj.value]);
      }
    }

    /** The Deployment loop. It stops at the first failing update. */
    method DeliverViaEnvVar(key: ObjectKey, spec: FlagSpec)
      returns (targeted: nat, ok: bool, ghost listing: seq<ObjectKey>)
      requires HasEnv(spec)
      modifies server`state, server`budget, server`writes
      ensures Lists(listing, Targets(old(server.state.deployments), key, spec))
      ensures var d := EnvStep(old(server.state.deployments), key, spec, listing, old(server.budget));
        && server.state == old(server.state).(deployments := d.objects)
        && ok == d.ok && targeted == d.targeted && server.budget == d.left
        && server.writes == old(server.writes) + d.writes
    {
      var delivery := spec.delivery.value.envVar.value;
      var inj := InjectionOf(delivery, key, spec);
      var selector := AsSelector(delivery.selector);
      if selector.Failure? {
        return 0, false, [];
      }
      var list, names := server.ListDeployments(key.ns, selector.value);
      listing := names;
      if list.Failure? {
        return 0, false, names;
      }
      targeted, ok := DeliverItems(list.value, listing, inj);
    }

    /** One turn of the outer loop: inject, and update only what changed. */
    method DeliverItem(item: Item, ghost listing: seq<ObjectKey>, inj: Injection) returns (ok: bool)
      requires listing != [] && item.key == listing[0]
      requires forall k | k in listing :: k in server.state.deployments
      requires item.deployment == server.state.deployments[listing[0]]
      modifies server`state, server`budget, server`writes
      ensures server.state == old(server.state).(deployments := server.state.deployments)
      ensures server.state.deployments.Keys == old(server.state.deployments.Keys)
      ensures forall k | k in server.state.deployments && k != listing[0] ::
        server.state.deployments[k] == old(server.state.deployments[k])
      ensures var d := DeliverListed(old(server.state.deployments), listing, inj, old(server.budget));
        if ok then
          Continues(d, DeliverListed(server.state.deployments, listing[1..], inj, server.budget),
                    old(server.writes), server.writes)
        else
          && d == Delivered(server.state.deployments, false, 0, [], server.budget)
          && server.writes == old(server.writes)
    {
      TurnContinues(server.state.deployments, listing, inj, server.budget, server.writes);
      var deploy, updated := InjectContainers(item.deployment, inj);
      if !updated { return true; }
      ok := server.UpdateDeployment(item.key, deploy);
    }

    /** Delivering to the rest, after one turn, completes the whole delivery. */
    static ghost predicate Continues(whole: Delivered<Deployments>, rest: Delivered<Deployments>,
                                     before: seq<Write>, after: seq<Write>)
    {
      && whole.objects == rest.objects && whole.ok == rest.ok && whole.left == rest.left
      && whole.targeted == (if rest.ok then rest.targeted + 1 else 0)
      && before + whole.writes == after + rest.writes
    }

    static lemma TurnContinues(
        ds: Deployments, listing: seq<ObjectKey>, inj: Injection, budget: Budget, before: seq<Write>)
      requires listing != [] && forall k | k in listing :: k in ds
      ensures var whole, k := DeliverListed(ds, listing, inj, budget), listing[0];
        var d := Inject(ds[k], inj);
        if d == ds[k] then
          Continues(whole, DeliverListed(ds, listing[1..], inj, budget), before, before)
        else if budget == Limited(0) then whole == Delivered(ds, false, 0, [], budget)
        else
          Continues(whole, DeliverListed(ds[k := d], listing[1..], inj, Spend(budget)),
                    before, before + [UpdateDeployment(k)])
    {
      var k := listing[0];
      var rest := DeliverListed(ds[k := Inject(ds[k], inj)], listing[1..], inj, Spend(budget));
      assert before + ([UpdateDeployment(k)] + rest.writes) == before + [UpdateDeployment(k)] + rest.writes;
    }

    /** The outer loop. It stops at the first failing update. */
    method DeliverItems(items: seq<Item>, ghost listing: seq<ObjectKey>, inj: Injection)
      returns (targeted: nat, ok: bool)
      requires Distinct(listing) && |items| == |listing|
      requires forall i | 0 <= i < |listing| ::
        && items[i].key == listing[i]
        && listing[i] in server.state.deployments && items[i].deployment == server.state.deployments[listing[i]]
      modifies server`state, server`budget, server`writes
      ensures var d := DeliverListed(old(server.state.deployments), listing, inj, old(server.budget));
        && server.state == old(server.state).(deployments := d.objects)
        && ok == d.ok && targeted == d.targeted && server.budget == d.left
        && server.writes == old(server.writes) + d.writes
    {
      ghost var whole := DeliverListed(server.state.deployments, listing, inj, server.budget);
      ghost var rest := whole;
      targeted := 0;
      assert listing[0..] == listing;
      for i := 0 to |items|
        invariant server.state == old(server.state).(deployments := server.state.deployments)
        invariant server.state.deployments.Keys == old(server.state.deployments.Keys)
        invariant forall j | i <= j < |items| :: items[j].deployment == server.state.deployments[listing[j]]
        invariant targeted == i
        invariant rest == DeliverListed(server.state.deployments, listing[i..], inj, server.budget)
        invariant whole.objects == rest.objects && whole.ok == rest.ok && whole.left == rest.left
        invariant whole.targeted == if rest.ok then targeted + rest.targeted else 0
        invariant old(server.writes) + whole.writes == server.writes + rest.writes
      {
        assert listing[i..][0] == listing[i] && listing[i..][1..] == listing[i + 1..];
        ok := DeliverItem(items[i], listing[i..], inj);
        if !ok {
          return 0, false;
        }
        targeted := targeted + 1;
        rest := DeliverListed(server.state.deployments, listing[i + 1..], inj, server.budget);
      }
      return targeted, true;
    }

    method DeliverViaConfigMap(key: ObjectKey, spec: FlagSpec) returns (ok: bool)
      requires HasConfigMap(spec)
      modifies server`state, server`budget, server`writes
      ensures var d := ConfigMapStep(old(server.state.configMaps), key, spec, old(server.budget));
        && server.state == old(server.state).(configMaps := d.objects)
        && ok == d.ok && server.budget == d.left
        && server.writes == old(server.writes) + d.writes
    {
      var delivery := spec.delivery.value.configMap.value;
      var cmKey := ObjectKey(key.ns, delivery.configMapName);
      var got := server.GetConfigMap(cmKey);
      if got.Failure? {
        if got.error == NotFound {
          ok := server.PutConfigMap(cmKey, ConfigMap(MANAGED_LABELS, map[delivery.key := spec.defaultValue]));
          return;
        }
        return false;
      }
      var cm := got.value;
      if ReadData(cm.data, delivery.key) != spec.defaultValue {
        cm := cm.(data := cm.data[delivery.key := spec.defaultValue]);
        ok := server.PutConfigMap(cmKey, cm);
        return;
      }
      return true;
    }

    /** Both channels in order, stopping at the first that fails. */
    method DeliverFlag(key: ObjectKey, spec: FlagSpec) returns (targeted: nat, ok: bool, ghost listing: seq<ObjectKey>)
      modifies server`state, server`budget, server`writes
      ensures Lists(listing, Targets(old(server.state.deployments), key, spec))
      ensures var d := Deliver(old(server.state), key, spec, listing, old(server.budget));
        && server.state == d.objects
        && ok == d.ok && (ok ==> targeted == d.targeted)
        && server.writes == old(server.writes) + d.writes
    {
      targeted, ok, listing := 0, true, [];
      if HasEnv(spec) {
        targeted, ok, listing := DeliverViaEnvVar(key, spec);
      }
      if ok && HasConfigMap(spec) {
        ok := DeliverViaConfigMap(key, spec);
      }
    }

    /** One reconcile. A delivery failure becomes phase Failed and a nil error, so it is not retried by itself. */
    method Reconcile(key: ObjectKey) returns (err: bool, ghost listing: seq<ObjectKey>)
      modifies server`state, server`budget, server`writes
      ensures Fits(old(server.state), key, listing)
      ensures var faults := Faults(old(server.budget), server.statusOk);
        var r := OperatorSpec.Reconcile(old(server.state), key, listing, faults);
        && server.state == r.cluster && err == r.err
        && server.writes == old(server.writes) + r.writes
    {
      listing := AnyListing(server.state, key);
      var got := server.GetFlag(key);
      if got.Failure? {
        return got.error != NotFound, listing;
      }
      var flag := got.value;
      var value := flag.spec.defaultValue;
      if flag.spec.disabled {
        err := server.UpdateStatus(key, FlagStatus(Disabled, value, 0));
        return err, listing;
      }
      var targeted, ok, listed := DeliverFlag(key, flag.spec);
      listing := listed;
      if ok {
        err := server.UpdateStatus(key, FlagStatus(Active, value, targeted));
      } else {
        err := server.UpdateStatus(key, FlagStatus(Failed, value, 0));
      }
    }
  }

  /** A set can be listed in some order. */
  ghost function Enumerate(keys: set<ObjectKey>): (r: seq<ObjectKey>)
    ensures Lists(r, keys)
  {
    if keys == {} then [] else
      var k :| k in keys;
      var rest := Enumerate(keys - {k});
      [k] + rest
  }

  ghost function AnyListing(c: Cluster, key: ObjectKey): (r: seq<ObjectKey>)
    ensures Fits(c, key, r)
  {
    Enumerate(if key in c.flags then Targets(c.deployments, key, c.flags[key].spec) else {})
  }
}
