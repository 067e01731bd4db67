/** From the operator's status to the sidecar's answer: which value is served, and when an edit shows. */
module Serving {
  import opened Results
  import opened FeatureFlags
  import opened OperatorSpec
  import opened OperatorReconcile
  import opened SidecarStore
  import Runs = OperatorRuns
  import Watch = WatchFold

  /** The sidecar serves the value that the spec asks for exactly when the status says the same or nothing yet. */
  predicate UpToDate(ff: FeatureFlag) {
    ff.status.currentValue == "" || ff.status.currentValue == ff.spec.defaultValue
  }

  /** An edit of the default value is not served until a reconcile has written the status; it shows at once only while
      the status is empty or already equal to the new value. */
  lemma EditIsServedLate(c: Cluster, key: ObjectKey, spec: FlagSpec)
    requires key in c.flags
    ensures var edited := Runs.Step(c, Runs.Edit(key, spec)).flags[key];
      && (ResolveFlag(key.name, edited).value == spec.defaultValue <==>
            c.flags[key].status.currentValue in {"", spec.defaultValue})
      && (ResolveFlag(key.name, edited).value == spec.defaultValue <==> UpToDate(edited))
  {
  }

  /** A reconcile that reads the flag and writes its status brings the flag up to date, even when delivery fails or the
      flag is disabled; without these two calls it leaves what is served as it was. */
  lemma ReconcileBringsUpToDate(c: Cluster, key: ObjectKey, a: Attempt)
    requires key in c.flags && Fits(c, key, a.listing)
    ensures var before, after := c.flags[key], Try(c, key, a).flags[key];
      if a.faults.budget != Limited(0) && a.faults.statusOk
      then UpToDate(after) && ResolveFlag(key.name, after).value == before.spec.defaultValue
      else ResolveFlag(key.name, after) == ResolveFlag(key.name, before)
  {
    if Enabled(c, key) {
      var _ := TryStands(c, key, a);
    }
  }

  /** End to end: once a reconcile has written the status and the sidecar's watch has caught up with a cluster that
      holds the flag in that version, the sidecar's store serves the value, disabled bit, type and description of the
      spec. */
  lemma ReconciledFlagIsServed(
      c: Cluster, key: ObjectKey, a: Attempt, live: map<string, FeatureFlag>, events: seq<Watch.Event>)
    requires key in c.flags && Fits(c, key, a.listing) && a.faults.budget != Limited(0) && a.faults.statusOk
    requires Watch.ValidRun(Watch.World(live, map[], None, {}), events)
    requires var end := Watch.Run(Watch.World(live, map[], None, {}), events);
      && end.session == Some(Watch.Session([], true))
      && key.name in end.live && end.live[key.name] == Try(c, key, a).flags[key]
    ensures var end := Watch.Run(Watch.World(live, map[], None, {}), events);
      && key.name in end.store
      && end.store[key.name].value == c.flags[key].spec.defaultValue
      && end.store[key.name].disabled == c.flags[key].spec.disabled
      && end.store[key.name].flagType == c.flags[key].spec.flagType
      && end.store[key.name].description == c.flags[key].spec.description
  {
    Watch.CaughtUp(live, events);
    ReconcileBringsUpToDate(c, key, a);
    ReconcileFrame(c, key, a);
  }
}
