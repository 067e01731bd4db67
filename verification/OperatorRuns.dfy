/** Confluence of the operator over arbitrary runs: flags are edited and removed, reconciles happen in any order,
    repeatedly, with any faults, and the values end up readable all at once. */
module OperatorRuns {
  import opened Results
  import opened FeatureFlags
  import opened EnvNames
  import opened OperatorSpec
  import opened OperatorDelivery
  import opened OperatorReconcile

  datatype Event =
    | Edit(key: ObjectKey, spec: FlagSpec)
    | Remove(key: ObjectKey)
    | Attempted(key: ObjectKey, attempt: Attempt)

  /** Two flags that never write the same environment variable of a namespace nor the same ConfigMap entry. */
  predicate SlotsApart(k1: ObjectKey, s1: FlagSpec, k2: ObjectKey, s2: FlagSpec) {
    k1.ns == k2.ns ==>
      && (HasEnv(s1) && HasEnv(s2) ==> InjectionFor(k1, s1).envName != InjectionFor(k2, s2).envName)
      && (HasConfigMap(s1) && HasConfigMap(s2) ==>
            var d1, d2 := s1.delivery.value.configMap.value, s2.delivery.value.configMap.value;
            d1.configMapName != d2.configMapName || d1.key != d2.key)
  }

  /** The variable that a flag asks for. */
  function VariableOf(key: ObjectKey, spec: FlagSpec): Option<string> {
    match spec.delivery
    case Some(Delivery(Some(d), _, _)) => Some(if d.name != "" then d.name else FlagNameToEnvVar(key.name))
    case _ => None
  }

  /** The ConfigMap and the key in it that a flag asks for. */
  function EntryOf(spec: FlagSpec): Option<(string, string)> {
    match spec.delivery
    case Some(Delivery(_, Some(d), _)) => Some((d.configMapName, d.key))
    case _ => None
  }

  /** Two flags share a slot exactly if they live in one namespace and ask for the same variable, or for the same entry
      of the same ConfigMap. */
  lemma SlotsAre(k1: ObjectKey, s1: FlagSpec, k2: ObjectKey, s2: FlagSpec)
    ensures !SlotsApart(k1, s1, k2, s2) <==>
      k1.ns == k2.ns
      && ((VariableOf(k1, s1).Some? && VariableOf(k1, s1) == VariableOf(k2, s2))
          || (EntryOf(s1).Some? && EntryOf(s1) == EntryOf(s2)))
  {
  }

  /** Only enabled flags are ever delivered, so only they must keep apart. */
  ghost predicate AllApart(c: Cluster) {
    forall k1, k2 | Enabled(c, k1) && Enabled(c, k2) && k1 != k2 ::
      SlotsApart(k1, c.flags[k1].spec, k2, c.flags[k2].spec)
  }

  ghost predicate Possible(c: Cluster, e: Event) {
    e.Attempted? ==> Fits(c, e.key, e.attempt.listing)
  }

  /** An edit creates the flag or replaces its spec; it leaves any status as it was. */
  function Step(c: Cluster, e: Event): Cluster
    requires e.Attempted? ==> forall k | k in e.attempt.listing :: k in c.deployments
  {
    match e
    case Edit(key, spec) =>
      c.(flags := c.flags[key := FeatureFlag(spec, if key in c.flags then c.flags[key].status else EMPTY_STATUS)])
    case Remove(key) => c.(flags := map k | k in c.flags && k != key :: c.flags[k])
    case Attempted(key, attempt) => Try(c, key, attempt)
  }

  /** Every listing fits and the enabled flags are apart in every state on the way. */
  ghost predicate ValidRun(c: Cluster, events: seq<Event>)
    decreases |events|
  {
    AllApart(c) && (events == [] || (Possible(c, events[0]) && ValidRun(Step(c, events[0]), events[1..])))
  }

  ghost function Run(c: Cluster, events: seq<Event>): Cluster
    requires ValidRun(c, events)
    decreases |events|
  {
    if events == [] then c else Run(Step(c, events[0]), events[1..])
  }

  predicate CleanAttempt(e: Event, key: ObjectKey) {
    e.Attempted? && e.key == key && e.attempt.faults.budget.Unlimited?
  }

  predicate Touches(e: Event, key: ObjectKey) {
    !e.Attempted? && e.key == key
  }

  /** Some attempt on the flag met no API failure, and the flag was not edited or removed after it. */
  ghost predicate Settled(events: seq<Event>, key: ObjectKey) {
    exists i | 0 <= i < |events| ::
      CleanAttempt(events[i], key) && forall j | i < j < |events| :: !Touches(events[j], key)
  }

  // ---- One step ---------------------------------------------------------------------------

  lemma SameTargets(c: Cluster, other: ObjectKey, a: Attempt, key: ObjectKey, spec: FlagSpec)
    requires Fits(c, other, a.listing)
    ensures Targets(Try(c, other, a).deployments, key, spec) == Targets(c.deployments, key, spec)
  {
    ReconcileFrame(c, other, a);
    var r := Try(c, other, a);
    forall k | k in c.deployments ensures r.deployments[k].labels == c.deployments[k].labels {
      if r.deployments[k] != c.deployments[k] {
        InjectDeployment(c.deployments[k], InjectionFor(other, c.flags[other].spec));
      }
    }
  }

  /** An attempt on a flag with other slots leaves a readable value readable. */
  lemma OthersKeepReadable(c: Cluster, other: ObjectKey, a: Attempt, key: ObjectKey, spec: FlagSpec)
    requires Fits(c, other, a.listing) && Readable(c, key, spec)
    requires Enabled(c, other) ==> SlotsApart(key, spec, other, c.flags[other].spec)
    ensures Readable(Try(c, other, a), key, spec)
  {
    var r := Try(c, other, a);
    ReconcileFrame(c, other, a);
    SameTargets(c, other, a, key, spec);
    if HasEnv(spec) {
      var name := InjectionFor(key, spec).envName;
      forall k | k in Targets(c.deployments, key, spec)
        ensures AllRead(r.deployments[k].containers, name, spec.defaultValue)
      {
        if r.deployments[k] != c.deployments[k] {
          InjectKeepsOthers(c.deployments[k], InjectionFor(other, c.flags[other].spec), name, spec.defaultValue);
        }
      }
    }
  }

  /** An attempt on the flag itself, however it fails, does not take back what is already readable. */
  lemma OwnKeepsReadable(c: Cluster, key: ObjectKey, a: Attempt)
    requires Enabled(c, key) && Fits(c, key, a.listing) && Readable(c, key, c.flags[key].spec)
    ensures Readable(Try(c, key, a), key, c.flags[key].spec)
  {
    NothingToDeliver(c, key, c.flags[key].spec, a.listing, Spend(a.faults.budget));
    var r := Try(c, key, a);
    assert r.deployments == c.deployments && r.configMaps == c.configMaps;
  }

  lemma StepKeepsReadable(c: Cluster, e: Event, key: ObjectKey)
    requires Possible(c, e) && AllApart(c) && !Touches(e, key)
    requires Enabled(c, key) && Readable(c, key, c.flags[key].spec)
    ensures Enabled(Step(c, e), key) && Step(c, e).flags[key].spec == c.flags[key].spec
    ensures Readable(Step(c, e), key, c.flags[key].spec)
  {
    if e.Attempted? {
      ReconcileFrame(c, e.key, e.attempt);
      if e.key == key {
        OwnKeepsReadable(c, key, e.attempt);
      } else {
        OthersKeepReadable(c, e.key, e.attempt, key, c.flags[key].spec);
      }
    } else {
      assert Readable(Step(c, e), key, c.flags[key].spec);
    }
  }

  /** A step that does not touch a flag keeps its presence and its spec. */
  lemma StepKeepsSpec(c: Cluster, e: Event, key: ObjectKey)
    requires Possible(c, e) && !Touches(e, key)
    ensures key in Step(c, e).flags <==> key in c.flags
    ensures key in c.flags ==> Step(c, e).flags[key].spec == c.flags[key].spec
  {
    if e.Attempted? { ReconcileFrame(c, e.key, e.attempt); }
  }

  // ---- Runs -------------------------------------------------------------------------------

  lemma {:induction false} RunKeepsReadable(c: Cluster, events: seq<Event>, key: ObjectKey)
    requires ValidRun(c, events) && forall j | 0 <= j < |events| :: !Touches(events[j], key)
    requires Enabled(c, key) && Readable(c, key, c.flags[key].spec)
    ensures Enabled(Run(c, events), key) && Run(c, events).flags[key].spec == c.flags[key].spec
    ensures Readable(Run(c, events), key, c.flags[key].spec)
    decreases |events|
  {
    if events != [] {
      StepKeepsReadable(c, events[0], key);
      RunKeepsReadable(Step(c, events[0]), events[1..], key);
    }
  }

  lemma {:induction false} RunKeepsSpec(c: Cluster, events: seq<Event>, key: ObjectKey)
    requires ValidRun(c, events) && forall j | 0 <= j < |events| :: !Touches(events[j], key)
    ensures key in Run(c, events).flags <==> key in c.flags
    ensures key in c.flags ==> Run(c, events).flags[key].spec == c.flags[key].spec
    decreases |events|
  {
    if events != [] {
      StepKeepsSpec(c, events[0], key);
      RunKeepsSpec(Step(c, events[0]), events[1..], key);
    }
  }

  lemma {:induction false} SettledFlagReadable(c: Cluster, events: seq<Event>, key: ObjectKey)
    requires ValidRun(c, events) && Settled(events, key)
    requires Enabled(Run(c, events), key) && Deliverable(Run(c, events).flags[key].spec)
    ensures Readable(Run(c, events), key, Run(c, events).flags[key].spec)
    decreases |events|
  {
    var i :|
      0 <= i < |events| && CleanAttempt(events[i], key) && forall j | i < j < |events| :: !Touches(events[j], key);
    var c1 := Step(c, events[0]);
    if i == 0 {
      StepKeepsSpec(c, events[0], key);
      forall j | 0 <= j < |events[1..]| ensures !Touches(events[1..][j], key) {
        assert events[1..][j] == events[j + 1];
      }
      RunKeepsSpec(c1, events[1..], key);
      CleanReconcileDelivers(c, key, events[0].attempt.listing, events[0].attempt.faults.statusOk);
      RunKeepsReadable(c1, events[1..], key);
    } else {
      assert events[1..][i - 1] == events[i];
      forall j | i - 1 < j < |events[1..]| ensures !Touches(events[1..][j], key) {
        assert events[1..][j] == events[j + 1];
      }
      SettledFlagReadable(c1, events[1..], key);
    }
  }

  /** Confluence. From any cluster, after any run in which every enabled deliverable flag has had one attempt
      without API failure since its last edit, all their values are readable at once. */
  lemma Confluence(c: Cluster, events: seq<Event>)
    requires ValidRun(c, events)
    requires forall key | Enabled(Run(c, events), key) :: Settled(events, key)
    ensures forall key | Enabled(Run(c, events), key) && Deliverable(Run(c, events).flags[key].spec) ::
      Readable(Run(c, events), key, Run(c, events).flags[key].spec)
  {
    forall key | Enabled(Run(c, events), key) && Deliverable(Run(c, events).flags[key].spec)
      ensures Readable(Run(c, events), key, Run(c, events).flags[key].spec)
    {
      SettledFlagReadable(c, events, key);
    }
  }

  /** Keeping apart is needed: two flags with different values that share a variable and a non-empty target, or a
      ConfigMap entry, are never both readable, whatever has been reconciled. */
  lemma SharedSlotExcludes(c: Cluster, k1: ObjectKey, s1: FlagSpec, k2: ObjectKey, s2: FlagSpec)
    requires !SlotsApart(k1, s1, k2, s2) && s1.defaultValue != s2.defaultValue
    requires HasEnv(s1) && HasEnv(s2) && InjectionFor(k1, s1).envName == InjectionFor(k2, s2).envName ==>
      exists k :: k in Targets(c.deployments, k1, s1) && k in Targets(c.deployments, k2, s2)
        && c.deployments[k].containers != []
    ensures !(Readable(c, k1, s1) && Readable(c, k2, s2))
  {
    if HasEnv(s1) && HasEnv(s2) && InjectionFor(k1, s1).envName == InjectionFor(k2, s2).envName {
      var k :| k in Targets(c.deployments, k1, s1) && k in Targets(c.deployments, k2, s2)
        && c.deployments[k].containers != [];
      var name, env := InjectionFor(k1, s1).envName, c.deployments[k].containers[0].env;
      assert Readable(c, k1, s1) ==> EnvValue(env, name) == Some(s1.defaultValue);
      assert Readable(c, k2, s2) ==> EnvValue(env, name) == Some(s2.defaultValue);
    }
  }

  /** Flags with default variable names are apart by themselves: legal names never share a variable. */
  lemma DefaultNamesApart(k1: ObjectKey, s1: FlagSpec, k2: ObjectKey, s2: FlagSpec)
    requires k1 != k2 && ObjectName(k1.name) && ObjectName(k2.name)
    requires HasEnv(s1) && s1.delivery.value.envVar.value.name == "" && !HasConfigMap(s1)
    requires HasEnv(s2) && s2.delivery.value.envVar.value.name == ""
    ensures SlotsApart(k1, s1, k2, s2)
  {
    if k1.ns == k2.ns && InjectionFor(k1, s1).envName == InjectionFor(k2, s2).envName {
      EnvNamesInjective(k1.name, k2.name);
    }
  }
}
