/** The workload scanner, and its agreement with what the operator delivers to. */
module Discovery {
  import opened Results
  import opened LabelSelectors
  import opened FeatureFlags
  import opened OperatorSpec
  import opened OperatorReconcile
  import opened WorkloadMatching
  import opened ContainerScan

  /** The parts of a workload object that the scanner reads; a missing replica count is nil. */
  datatype Found = Found(key: ObjectKey, labels: Labels, replicas: Option<int>, containers: seq<PodContainer>)

  /** The three kinds of workload objects of a cluster, as the API server lists them. */
  datatype Inventory = Inventory(deployments: seq<Found>, statefulSets: seq<Found>, daemonSets: seq<Found>)

  function Describe(kind: Kind, found: Found, managed: set<string>): Workload {
    Workload(kind, found.key, if found.replicas.Some? then found.replicas.value else 0, found.labels,
      ShownAll(found.containers, managed), [])
  }

  /** The workloads of one kind in a namespace; listing an empty namespace lists all. */
  function Scanned(kind: Kind, items: seq<Found>, ns: string, managed: set<string>): seq<Workload> {
    if items == [] then [] else
      var last := items[|items| - 1];
      Scanned(kind, items[..|items| - 1], ns, managed)
      + (if ns == "" || last.key.ns == ns then [Describe(kind, last, managed)] else [])
  }

  function Scan(inv: Inventory, ns: string, managed: set<string>): seq<Workload> {
    Scanned(DeploymentKind, inv.deployments, ns, managed)
    + Scanned(StatefulSetKind, inv.statefulSets, ns, managed)
    + Scanned(DaemonSetKind, inv.daemonSets, ns, managed)
  }

  /** The set of managed ConfigMaps after one more namespace. */
  function Loaded(before: set<string>, listed: Option<set<string>>): set<string> {
    if listed.Some? then before + listed.value else {}
  }

  class Scanner {
    /** Names of ConfigMaps that Vexil manages. The set is never cleared between namespaces. */
    var vexilManagedCMs: set<string>

    constructor ()
      ensures vexilManagedCMs == {}
    {
      vexilManagedCMs := {};
    }

    method LoadVexilConfigMaps(listed: Option<set<string>>)
      modifies this
      ensures vexilManagedCMs == Loaded(old(vexilManagedCMs), listed)
      ensures vexilManagedCMs == if listed.Some? then old(vexilManagedCMs) + listed.value else {}
    {
      if listed.Some? {
        vexilManagedCMs := vexilManagedCMs + listed.value;
      } else {
        vexilManagedCMs := {};
      }
    }

    method ScanKind(kind: Kind, items: seq<Found>, ns: string, so: seq<Workload>) returns (r: seq<Workload>)
      ensures r == so + Scanned(kind, items, ns, vexilManagedCMs)
    {
      r := so;
      for k := 0 to |items|
        invariant r == so + Scanned(kind, items[..k], ns, vexilManagedCMs)
      {
        assert items[..k + 1][..k] == items[..k];
        if ns == "" || items[k].key.ns == ns {
          var replicas := 0;
          if items[k].replicas.Some? {
            replicas := items[k].replicas.value;
          }
          var containers := ExtractContainersSafe(items[k].containers, vexilManagedCMs);
          r := r + [Workload(kind, items[k].key, replicas, items[k].labels, containers, [])];
        }
      }
      assert items[..|items|] == items;
    }

    /** A failing list of any kind fails the whole scan. */
    method ScanNamespace(inv: Inventory, ns: string, managed: Option<set<string>>,
                         deploymentsOk: bool, statefulSetsOk: bool, daemonSetsOk: bool)
      returns (r: Result<seq<Workload>, string>)
      modifies this
      ensures vexilManagedCMs == Loaded(old(vexilManagedCMs), managed)
      ensures r == if deploymentsOk && statefulSetsOk && daemonSetsOk then Success(Scan(inv, ns, vexilManagedCMs))
                   else Failure("listing workloads")
    {
      LoadVexilConfigMaps(managed);
      var workloads: seq<Workload> := [];
      if !deploymentsOk { return Failure("listing workloads"); }
      workloads := ScanKind(DeploymentKind, inv.deployments, ns, workloads);
      if !statefulSetsOk { return Failure("listing workloads"); }
      workloads := ScanKind(StatefulSetKind, inv.statefulSets, ns, workloads);
      if !daemonSetsOk { return Failure("listing workloads"); }
      workloads := ScanKind(DaemonSetKind, inv.daemonSets, ns, workloads);
      assert workloads == Scan(inv, ns, vexilManagedCMs);
      return Success(workloads);
    }
  }

  // ---- Agreement with the operator --------------------------------------------------------

  /** The inventory and the flag listing show this cluster. */
  ghost predicate Shows(c: Cluster, inv: Inventory, source: FlagSource) {
    && source.failing == {}
    && (forall i, j | 0 <= i < j < |inv.deployments| :: inv.deployments[i].key != inv.deployments[j].key)
    && (forall i | 0 <= i < |inv.deployments| ::
          var d := inv.deployments[i]; d.key in c.deployments && d.labels == c.deployments[d.key].labels)
    && (forall k | k in c.deployments :: exists i :: 0 <= i < |inv.deployments| && inv.deployments[i].key == k)
    && (forall i, j | 0 <= i < j < |source.flags| :: source.flags[i].key != source.flags[j].key)
    && (forall i | 0 <= i < |source.flags| ::
          var f := source.flags[i]; f.key in c.flags && f.spec == c.flags[f.key].spec)
    && (forall k | k in c.flags :: exists i :: 0 <= i < |source.flags| && source.flags[i].key == k)
  }

  /** How many Deployment entries carry the flag's name. */
  function CountLabelled(ws: seq<Workload>, name: string): nat {
    if ws == [] then 0 else
      var last := ws[|ws| - 1];
      CountLabelled(ws[..|ws| - 1], name)
      + (if last.kind == DeploymentKind && name in last.matchingFlags then 1 else 0)
  }

  lemma {:induction false} CountOfConcatenation(a: seq<Workload>, b: seq<Workload>, name: string)
    ensures CountLabelled(a + b, name) == CountLabelled(a, name) + CountLabelled(b, name)
  {
    if b == [] {
      assert a + b == a;
    } else {
      CountOfConcatenation(a, b[..|b| - 1], name);
      assert (a + b)[..|a + b| - 1] == a + b[..|b| - 1];
    }
  }

  lemma {:induction false} OtherKindsDoNotCount(ws: seq<Workload>, name: string)
    requires forall i | 0 <= i < |ws| :: ws[i].kind != DeploymentKind
    ensures CountLabelled(ws, name) == 0
  {
    if ws != [] { OtherKindsDoNotCount(ws[..|ws| - 1], name); }
  }

  lemma {:induction false} ScannedShape(kind: Kind, items: seq<Found>, ns: string, managed: set<string>)
    ensures forall i | 0 <= i < |Scanned(kind, items, ns, managed)| ::
      var w := Scanned(kind, items, ns, managed)[i];
      w.kind == kind && w.matchingFlags == [] && (ns != "" ==> w.key.ns == ns)
  {
    if items != [] { ScannedShape(kind, items[..|items| - 1], ns, managed); }
  }

  lemma AimsAsOperator(spec: FlagSpec, labels: Labels)
    requires HasEnv(spec) && Deliverable(spec)
    ensures Aims(spec, labels) <==> Matches(AsSelector(spec.delivery.value.envVar.value.selector).value, labels)
  {
  }

  /** The keys of the listed Deployments of a namespace that a selector matches. */
  function MatchedKeys(items: seq<Found>, ns: string, s: Selector): seq<ObjectKey> {
    if items == [] then [] else
      var last := items[|items| - 1];
      MatchedKeys(items[..|items| - 1], ns, s)
      + (if last.key.ns == ns && Matches(s, last.labels) then [last.key] else [])
  }

  predicate SomeMatches(items: seq<Found>, k: ObjectKey, ns: string, s: Selector) {
    exists i :: 0 <= i < |items| && items[i].key == k && k.ns == ns && Matches(s, items[i].labels)
  }

  lemma SomeMatchesOneMore(items: seq<Found>, f: Found, k: ObjectKey, ns: string, s: Selector)
    ensures SomeMatches(items + [f], k, ns, s)
      <==> SomeMatches(items, k, ns, s) || (f.key == k && k.ns == ns && Matches(s, f.labels))
  {
    var more := items + [f];
    if SomeMatches(items, k, ns, s) {
      var i :| 0 <= i < |items| && items[i].key == k && k.ns == ns && Matches(s, items[i].labels);
      assert more[i] == items[i];
    }
    assert more[|items|] == f;
  }

  lemma {:induction false} MatchedKeysAre(items: seq<Found>, ns: string, s: Selector)
    requires forall i, j | 0 <= i < j < |items| :: items[i].key != items[j].key
    ensures Distinct(MatchedKeys(items, ns, s))
    ensures forall k :: k in MatchedKeys(items, ns, s) <==> SomeMatches(items, k, ns, s)
  {
    if items != [] {
      var front, last := items[..|items| - 1], items[|items| - 1];
      MatchedKeysAre(front, ns, s);
      assert items == front + [last];
      forall k ensures k in MatchedKeys(items, ns, s) <==> SomeMatches(items, k, ns, s) {
        SomeMatchesOneMore(front, last, k, ns, s);
      }
      assert !SomeMatches(front, last.key, ns, s);
    }
  }

  /** Labels given to scanned Deployments when every workload is asked the plain question. */
  function NaiveLabelled(ws: seq<Workload>, flags: seq<NamedFlag>): (r: seq<Workload>)
    ensures |r| == |ws|
    ensures forall i | 0 <= i < |ws| :: r[i] == Labelled(ws[i], Naive(flags, ws[i].key.ns, ws[i].labels))
  {
    seq(|ws|, i requires 0 <= i < |ws| => Labelled(ws[i], Naive(flags, ws[i].key.ns, ws[i].labels)))
  }

  lemma {:induction false} CountMatched(
      items: seq<Found>, flags: seq<NamedFlag>, key: ObjectKey, s: Selector, managed: set<string>)
    requires key.ns != ""
    requires forall labels :: key.name in Naive(flags, key.ns, labels) <==> Matches(s, labels)
    ensures CountLabelled(NaiveLabelled(Scanned(DeploymentKind, items, key.ns, managed), flags), key.name)
      == |MatchedKeys(items, key.ns, s)|
  {
    if items != [] {
      var front, last := items[..|items| - 1], items[|items| - 1];
      CountMatched(front, flags, key, s, managed);
      var a := NaiveLabelled(Scanned(DeploymentKind, front, key.ns, managed), flags);
      var b := NaiveLabelled(Scanned(DeploymentKind, items, key.ns, managed), flags);
      if last.key.ns == key.ns {
        assert b[..|b| - 1] == a;
        assert b[|b| - 1].matchingFlags == Naive(flags, key.ns, last.labels);
      } else {
        assert b == a;
      }
    }
  }

  /** Where every workload has a namespace, the cache gives each the plain answer. */
  lemma EnrichedIsNaive(source: FlagSource, ws: seq<Workload>)
    requires source.failing == {} && forall i | 0 <= i < |ws| :: ws[i].key.ns != ""
    ensures Enriched(source, ws) == NaiveLabelled(ws, source.flags)
  {
    assert "" !in NamespacesOf(ws);
    forall i | 0 <= i < |ws| ensures Enriched(source, ws)[i] == NaiveLabelled(ws, source.flags)[i] {
      var plain := Naive(source.flags, ws[i].key.ns, ws[i].labels);
      assert ws[i].key.ns in NamespacesOf(ws) && plain + [] == plain;
    }
  }

  /** On one snapshot of a cluster, the number of Deployments that a successful environment delivery reports equals
      the number of Deployment entries that discovery labels with the flag, for every kind of selector. */
  lemma OperatorAndDiscoveryAgree(
      c: Cluster, inv: Inventory, source: FlagSource, key: ObjectKey, listing: seq<ObjectKey>, budget: Budget,
      managed: set<string>)
    requires Shows(c, inv, source) && key.ns != ""
    requires key in c.flags && HasEnv(c.flags[key].spec) && Fits(c, key, listing)
    requires EnvStep(c.deployments, key, c.flags[key].spec, listing, budget).ok
    ensures EnvStep(c.deployments, key, c.flags[key].spec, listing, budget).targeted
      == CountLabelled(Enriched(source, Scan(inv, key.ns, managed)), key.name)
  {
    var spec := c.flags[key].spec;
    var _ := EnvStands(c.deployments, key, spec, listing, budget);
    var s := AsSelector(spec.delivery.value.envVar.value.selector).value;
    FlagAnswersAsOperator(c, source, inv, key, s);
    CountMatched(inv.deployments, source.flags, key, s, managed);
    MatchedKeysAre(inv.deployments, key.ns, s);
    var ks := MatchedKeys(inv.deployments, key.ns, s);
    forall k ensures k in ks <==> k in Targets(c.deployments, key, spec) {
      if SomeMatches(inv.deployments, k, key.ns, s) {
        var i :|
          && 0 <= i < |inv.deployments| && inv.deployments[i].key == k
          && k.ns == key.ns && Matches(s, inv.deployments[i].labels);
      }
      if k in Targets(c.deployments, key, spec) {
        var i :| 0 <= i < |inv.deployments| && inv.deployments[i].key == k;
        assert Matches(s, inv.deployments[i].labels);
      }
    }
    ListingSize(ks, Targets(c.deployments, key, spec));
    CountScan(inv, source, key, managed);
  }

  lemma FlagAnswersAsOperator(c: Cluster, source: FlagSource, inv: Inventory, key: ObjectKey, s: Selector)
    requires Shows(c, inv, source) && key in c.flags && HasEnv(c.flags[key].spec)
    requires AsSelector(c.flags[key].spec.delivery.value.envVar.value.selector) == Success(s)
    ensures forall labels :: key.name in Naive(source.flags, key.ns, labels) <==> Matches(s, labels)
  {
    forall labels ensures key.name in Naive(source.flags, key.ns, labels) <==> Matches(s, labels) {
      NaiveContains(source.flags, key.ns, labels, key.name);
      AimsAsOperator(c.flags[key].spec, labels);
      var i :| 0 <= i < |source.flags| && source.flags[i].key == key;
      assert source.flags[i].spec == c.flags[key].spec;
    }
  }

  lemma CountParts(ds: seq<Workload>, others: seq<Workload>, flags: seq<NamedFlag>, name: string)
    requires forall i | 0 <= i < |others| :: others[i].kind != DeploymentKind
    ensures CountLabelled(NaiveLabelled(ds + others, flags), name) == CountLabelled(NaiveLabelled(ds, flags), name)
  {
    var a, b := NaiveLabelled(ds, flags), NaiveLabelled(others, flags);
    assert NaiveLabelled(ds + others, flags) == a + b;
    CountOfConcatenation(a, b, name);
    OtherKindsDoNotCount(b, name);
  }

  /** Only the Deployment part of a scan counts. */
  lemma CountScan(inv: Inventory, source: FlagSource, key: ObjectKey, managed: set<string>)
    requires source.failing == {} && key.ns != ""
    ensures CountLabelled(Enriched(source, Scan(inv, key.ns, managed)), key.name)
      == CountLabelled(NaiveLabelled(Scanned(DeploymentKind, inv.deployments, key.ns, managed), source.flags), key.name)
  {
    var ds := Scanned(DeploymentKind, inv.deployments, key.ns, managed);
    var ss := Scanned(StatefulSetKind, inv.statefulSets, key.ns, managed);
    var ms := Scanned(DaemonSetKind, inv.daemonSets, key.ns, managed);
    ScannedShape(DeploymentKind, inv.deployments, key.ns, managed);
    ScannedShape(StatefulSetKind, inv.statefulSets, key.ns, managed);
    ScannedShape(DaemonSetKind, inv.daemonSets, key.ns, managed);
    assert Scan(inv, key.ns, managed) == ds + (ss + ms);
    EnrichedIsNaive(source, ds + (ss + ms));
    CountParts(ds, ss + ms, source.flags, key.name);
  }

  // ---- What a scan shows ------------------------------------------------------------------

  lemma {:induction false} ScannedAre(kind: Kind, items: seq<Found>, ns: string, managed: set<string>, w: Workload)
    ensures w in Scanned(kind, items, ns, managed) <==> exists f ::
      && f in items && (ns == "" || f.key.ns == ns)
      && w == Workload(kind, f.key, if f.replicas == None then 0 else f.replicas.value, f.labels,
                       ShownAll(f.containers, managed), [])
  {
    if items != [] {
      var front, last := items[..|items| - 1], items[|items| - 1];
      ScannedAre(kind, front, ns, managed, w);
      assert items == front + [last];
    }
  }

  /** The objects of one kind. */
  function ItemsOf(inv: Inventory, kind: Kind): seq<Found> {
    match kind case DeploymentKind => inv.deployments case StatefulSetKind => inv.statefulSets
               case DaemonSetKind => inv.daemonSets
  }

  /** A scan shows exactly the objects of the three kinds in the namespace, each with its kind, key and labels, its
      replica count, or 0 where there is none, and what may be shown of its containers. */
  lemma ScanShows(inv: Inventory, ns: string, managed: set<string>, w: Workload)
    ensures w in Scan(inv, ns, managed) <==> exists f ::
      && f in ItemsOf(inv, w.kind) && (ns == "" || f.key.ns == ns)
      && w == Workload(w.kind, f.key, if f.replicas == None then 0 else f.replicas.value, f.labels,
                       ShownAll(f.containers, managed), [])
  {
    ScannedAre(DeploymentKind, inv.deployments, ns, managed, w);
    ScannedAre(StatefulSetKind, inv.statefulSets, ns, managed, w);
    ScannedAre(DaemonSetKind, inv.daemonSets, ns, managed, w);
  }

  lemma {:induction false} ScannedJoin(kind: Kind, a: seq<Found>, b: seq<Found>, ns: string, managed: set<string>)
    ensures Scanned(kind, a + b, ns, managed) == Scanned(kind, a, ns, managed) + Scanned(kind, b, ns, managed)
  {
    if b == [] {
      assert a + b == a;
    } else {
      ScannedJoin(kind, a, b[..|b| - 1], ns, managed);
      assert (a + b)[..|a + b| - 1] == a + b[..|b| - 1];
    }
  }
}
