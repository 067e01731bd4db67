/** The two ways to list workloads, one namespace or all of them, and how they agree. */
module WorkloadListing {
  import opened ContainerScan
  import opened Discovery
  import opened OperatorSpec
  import opened Results
  import opened TextOrder
  import opened WorkloadMatching

  const SYSTEM_NAMESPACES := {"kube-system", "kube-public", "kube-node-lease", "local-path-storage"}

  ghost function NamespacesWithFlags(flags: seq<NamedFlag>): set<string> {
    set i | 0 <= i < |flags| :: flags[i].key.ns
  }

  /** Collects the namespaces of all flags in a set, then lists it sorted. */
  method CollectNamespaces(flags: seq<NamedFlag>) returns (names: seq<string>)
    ensures Rising(names) && forall ns :: ns in names <==> ns in NamespacesWithFlags(flags)
  {
    var nsSet: set<string> := {};
    for i := 0 to |flags|
      invariant nsSet == set j | 0 <= j < i :: flags[j].key.ns
    {
      nsSet := nsSet + {flags[i].key.ns};
    }
    names := SortStrings(nsSet);
  }

  lemma {:induction false} InEveryNamespace(flags: seq<NamedFlag>)
    ensures InNamespace(flags, "") == flags
  {
    if flags != [] { InEveryNamespace(flags[..|flags| - 1]); }
  }

  method Contains(ss: seq<string>, s: string) returns (r: bool)
    ensures r <==> s in ss
  {
    for i := 0 to |ss|
      invariant s !in ss[..i]
    {
      if ss[i] == s { return true; }
    }
    return false;
  }

  // ---- A scan over many namespaces --------------------------------------------------------

  /** What the cluster answers: the managed ConfigMaps of each namespace where they can be listed, and the namespaces
      whose workloads cannot be listed. */
  datatype Answers = Answers(managed: map<string, set<string>>, failing: set<string>)

  function ManagedIn(a: Answers, ns: string): Option<set<string>> {
    if ns in a.managed then Some(a.managed[ns]) else None
  }

  /** The scanner's set after it has visited the namespaces in order. */
  function ManagedAfter(start: set<string>, names: seq<string>, a: Answers): set<string> {
    if names == [] then start else
      var last := names[|names| - 1];
      var before := ManagedAfter(start, names[..|names| - 1], a);
      if last in SYSTEM_NAMESPACES then before else Loaded(before, ManagedIn(a, last))
  }

  function ScanPart(inv: Inventory, ns: string, a: Answers, managed: set<string>): seq<Workload> {
    if ns in SYSTEM_NAMESPACES || ns in a.failing then [] else Scan(inv, ns, managed)
  }

  /** The namespaces in order, without system namespaces and without those that fail. */
  function ScanAll(inv: Inventory, names: seq<string>, a: Answers, start: set<string>): seq<Workload> {
    if names == [] then [] else
      var last := names[|names| - 1];
      ScanAll(inv, names[..|names| - 1], a, start) + ScanPart(inv, last, a, ManagedAfter(start, names, a))
  }

  method ScanCluster(scanner: Scanner, inv: Inventory, names: seq<string>, a: Answers)
    returns (workloads: seq<Workload>)
    modifies scanner
    ensures workloads == ScanAll(inv, names, a, old(scanner.vexilManagedCMs))
    ensures scanner.vexilManagedCMs == ManagedAfter(old(scanner.vexilManagedCMs), names, a)
  {
    workloads := [];
    ghost var start := scanner.vexilManagedCMs;
    for i := 0 to |names|
      invariant workloads == ScanAll(inv, names[..i], a, start)
      invariant scanner.vexilManagedCMs == ManagedAfter(start, names[..i], a)
    {
      assert names[..i + 1][..i] == names[..i];
      var ns := names[i];
      if ns in SYSTEM_NAMESPACES { continue; }
      var r := scanner.ScanNamespace(inv, ns, ManagedIn(a, ns), ns !in a.failing, true, true);
      if r.Failure? { continue; }
      workloads := workloads + r.value;
    }
    assert names[..|names|] == names;
  }

  // ---- The listing endpoint ---------------------------------------------------------------

  /** What is found for a namespace, or for all when it is empty; None when the one asked for cannot be scanned. */
  function Listed(inv: Inventory, names: seq<string>, a: Answers, ns: string): Option<seq<Workload>> {
    if ns == "" then Some(ScanAll(inv, names, a, {}))
    else if ns !in names then Some([])
    else if ns in a.failing then None
    else Some(Scan(inv, ns, Loaded({}, ManagedIn(a, ns))))
  }

  /** The namespaces that hold flags, sorted; none when the flags cannot be listed. */
  ghost predicate Allowed(names: seq<string>, source: FlagSource) {
    Rising(names) && forall x :: x in names <==> "" !in source.failing && x in NamespacesWithFlags(source.flags)
  }

  method AllowedNamespaces(source: FlagSource) returns (names: seq<string>)
    ensures Allowed(names, source)
  {
    names := [];
    var flags := ListFlags(source, "");
    if flags.Some? {
      InEveryNamespace(source.flags);
      names := CollectNamespaces(flags.value);
    }
  }

  method Find(inv: Inventory, allowed: seq<string>, a: Answers, ns: string) returns (found: Option<seq<Workload>>)
    ensures found == Listed(inv, allowed, a, ns)
  {
    var scanner := new Scanner();
    if ns == "" {
      var all := ScanCluster(scanner, inv, allowed, a);
      return Some(all);
    }
    var known := Contains(allowed, ns);
    if !known { return Some([]); }
    var r := scanner.ScanNamespace(inv, ns, ManagedIn(a, ns), ns !in a.failing, true, true);
    return if r.Failure? then None else Some(r.value);
  }

  method List(registered: bool, inv: Inventory, source: FlagSource, a: Answers, ns: string)
    returns (status: int, workloads: array<Workload>, ghost names: seq<string>)
    ensures Allowed(names, source) && fresh(workloads)
    ensures status == if !registered then 404 else if ns != "" && ns in names && ns in a.failing then 500 else 200
    ensures registered ==> (status == 200 <==> Listed(inv, names, a, ns).Some?)
    ensures workloads[..] == if status == 200 then Enriched(source, Listed(inv, names, a, ns).value) else []
  {
    workloads := new Workload[0];
    var allowed := AllowedNamespaces(source);
    names := allowed;
    if !registered { return 404, workloads, names; }
    var found := Find(inv, allowed, a, ns);
    if found.None? { return 500, workloads, names; }
    var items := found.value;
    workloads := new Workload[|items|](i requires 0 <= i < |items| => items[i]);
    assert workloads[..] == items;
    Enrich(source, workloads);
    return 200, workloads, names;
  }

  // ---- Picking one namespace out of a listing ---------------------------------------------

  function Only(ws: seq<Workload>, ns: string): seq<Workload> {
    if ws == [] then [] else
      var last := ws[|ws| - 1];
      Only(ws[..|ws| - 1], ns) + (if last.key.ns == ns then [last] else [])
  }

  lemma {:induction false} OnlyOfConcatenation(a: seq<Workload>, b: seq<Workload>, ns: string)
    ensures Only(a + b, ns) == Only(a, ns) + Only(b, ns)
  {
    if b == [] {
      assert a + b == a;
    } else {
      OnlyOfConcatenation(a, b[..|b| - 1], ns);
      assert (a + b)[..|a + b| - 1] == a + b[..|b| - 1];
    }
  }

  lemma {:induction false} OnlyAllOrNone(ws: seq<Workload>, from: string, ns: string)
    requires forall i | 0 <= i < |ws| :: ws[i].key.ns == from
    ensures Only(ws, ns) == if from == ns then ws else []
  {
    if ws != [] { OnlyAllOrNone(ws[..|ws| - 1], from, ns); }
  }

  /** Freshly found workloads of the given namespaces. */
  ghost predicate Bare(ws: seq<Workload>, names: seq<string>) {
    forall i | 0 <= i < |ws| :: ws[i].key.ns in names && ws[i].matchingFlags == []
  }

  lemma ScanShape(inv: Inventory, ns: string, managed: set<string>)
    requires ns != ""
    ensures Bare(Scan(inv, ns, managed), [ns])
  {
    ScannedShape(DeploymentKind, inv.deployments, ns, managed);
    ScannedShape(StatefulSetKind, inv.statefulSets, ns, managed);
    ScannedShape(DaemonSetKind, inv.daemonSets, ns, managed);
  }

  lemma {:induction false} ScanAllShape(inv: Inventory, names: seq<string>, a: Answers, start: set<string>)
    requires "" !in names
    ensures Bare(ScanAll(inv, names, a, start), names)
  {
    if names != [] {
      var front, last := names[..|names| - 1], names[|names| - 1];
      ScanAllShape(inv, front, a, start);
      assert names == front + [last];
      ScanShape(inv, last, ManagedAfter(start, names, a));
    }
  }

  /** The scanner's set at the moment it shows the workloads of a namespace. */
  function ManagedAt(start: set<string>, names: seq<string>, a: Answers, ns: string): set<string> {
    if names == [] then {}
    else if names[|names| - 1] == ns then ManagedAfter(start, names, a)
    else ManagedAt(start, names[..|names| - 1], a, ns)
  }

  lemma OnlyOfPart(inv: Inventory, from: string, a: Answers, managed: set<string>, ns: string)
    requires from != ""
    ensures Only(ScanPart(inv, from, a, managed), ns) == if from == ns then ScanPart(inv, from, a, managed) else []
  {
    ScanShape(inv, from, managed);
    OnlyAllOrNone(ScanPart(inv, from, a, managed), from, ns);
  }

  /** Of a cluster-wide scan, the part of one namespace is that namespace's own scan, once, shown with the set of
      managed ConfigMaps that the scanner had gathered by then. */
  lemma {:induction false} OnlyOfScanAll(inv: Inventory, names: seq<string>, a: Answers, start: set<string>, ns: string)
    requires Distinct(names) && "" !in names
    ensures Only(ScanAll(inv, names, a, start), ns)
      == if ns in names then ScanPart(inv, ns, a, ManagedAt(start, names, a, ns)) else []
  {
    if names != [] {
      var front, last := names[..|names| - 1], names[|names| - 1];
      OnlyOfScanAll(inv, front, a, start, ns);
      assert names == front + [last] && last !in front;
      var part := ScanPart(inv, last, a, ManagedAfter(start, names, a));
      OnlyOfPart(inv, last, a, ManagedAfter(start, names, a), ns);
      OnlyOfConcatenation(ScanAll(inv, front, a, start), part, ns);
    }
  }

  lemma {:induction false} OwnSetIsGathered(start: set<string>, names: seq<string>, a: Answers, ns: string)
    requires ns in names && ns !in SYSTEM_NAMESPACES
    ensures Loaded({}, ManagedIn(a, ns)) <= ManagedAt(start, names, a, ns)
  {
    if names[|names| - 1] != ns {
      assert names == names[..|names| - 1] + [names[|names| - 1]];
      OwnSetIsGathered(start, names[..|names| - 1], a, ns);
    }
  }

  // ---- Attaching flags and picking commute ------------------------------------------------

  /** Selecting a namespace and attaching flags can be done in either order: a workload's flags do not depend on what
      else is listed. */
  lemma {:induction false} OnlyOfEnriched(ws: seq<Workload>, flags: seq<NamedFlag>, ns: string)
    ensures Only(NaiveLabelled(ws, flags), ns) == NaiveLabelled(Only(ws, ns), flags)
  {
    if ws != [] {
      var front, last := ws[..|ws| - 1], ws[|ws| - 1];
      OnlyOfEnriched(front, flags, ns);
      assert NaiveLabelled(ws, flags)[..|ws| - 1] == NaiveLabelled(front, flags);
      assert NaiveLabelled(Only(front, ns) + [last], flags)
        == NaiveLabelled(Only(front, ns), flags) + [Labelled(last, Naive(flags, last.key.ns, last.labels))];
    }
  }

  lemma LabellingIsInjective(a: seq<Workload>, b: seq<Workload>, flags: seq<NamedFlag>, names: seq<string>)
    requires Bare(a, names) && Bare(b, names) && NaiveLabelled(a, flags) == NaiveLabelled(b, flags)
    ensures a == b
  {
    var la, lb := NaiveLabelled(a, flags), NaiveLabelled(b, flags);
    assert |a| == |la| == |lb| == |b|;
    forall i | 0 <= i < |a| ensures a[i] == b[i] {
      assert la[i] == Labelled(a[i], Naive(flags, a[i].key.ns, a[i].labels));
      assert lb[i] == Labelled(b[i], Naive(flags, b[i].key.ns, b[i].labels));
      assert a[i] == la[i].(matchingFlags := []) && b[i] == lb[i].(matchingFlags := []);
    }
  }

  // ---- The same workloads shown with two sets of managed ConfigMaps -----------------------

  /** Some container of the workload takes in a whole ConfigMap that only the larger set knows. */
  predicate FoundTakesExtra(f: Found, own: set<string>, all: set<string>) {
    exists i :: 0 <= i < |f.containers| && TakesExtra(f.containers[i], own, all)
  }

  predicate AnyTakesExtra(items: seq<Found>, ns: string, own: set<string>, all: set<string>) {
    exists i :: 0 <= i < |items| && items[i].key.ns == ns && FoundTakesExtra(items[i], own, all)
  }

  lemma DescribedTheSame(kind: Kind, f: Found, own: set<string>, all: set<string>)
    requires own <= all
    ensures Describe(kind, f, own) == Describe(kind, f, all) <==> !FoundTakesExtra(f, own, all)
  {
    var a, b := ShownAll(f.containers, own), ShownAll(f.containers, all);
    forall i | 0 <= i < |f.containers| ensures a[i] == b[i] <==> !TakesExtra(f.containers[i], own, all) {
      LargerSetShowsMore(f.containers[i], own, all);
    }
  }

  lemma AnyTakesExtraOneMore(front: seq<Found>, f: Found, ns: string, own: set<string>, all: set<string>)
    ensures AnyTakesExtra(front + [f], ns, own, all)
      <==> AnyTakesExtra(front, ns, own, all) || (f.key.ns == ns && FoundTakesExtra(f, own, all))
  {
    var items := front + [f];
    assert items[|front|] == f;
    if AnyTakesExtra(front, ns, own, all) {
      var i :| 0 <= i < |front| && front[i].key.ns == ns && FoundTakesExtra(front[i], own, all);
      assert items[i] == front[i];
    }
  }

  lemma {:induction false} ScannedTheSame(kind: Kind, items: seq<Found>, ns: string, own: set<string>, all: set<string>)
    requires own <= all && ns != ""
    ensures |Scanned(kind, items, ns, own)| == |Scanned(kind, items, ns, all)|
    ensures Scanned(kind, items, ns, own) == Scanned(kind, items, ns, all) <==> !AnyTakesExtra(items, ns, own, all)
  {
    if items != [] {
      var front, last := items[..|items| - 1], items[|items| - 1];
      ScannedTheSame(kind, front, ns, own, all);
      assert items == front + [last];
      AnyTakesExtraOneMore(front, last, ns, own, all);
      if last.key.ns == ns {
        DescribedTheSame(kind, last, own, all);
        EqualParts(Scanned(kind, front, ns, own), [Describe(kind, last, own)],
                   Scanned(kind, front, ns, all), [Describe(kind, last, all)]);
      } else {
        assert Scanned(kind, items, ns, own) == Scanned(kind, front, ns, own);
        assert Scanned(kind, items, ns, all) == Scanned(kind, front, ns, all);
      }
    }
  }

  lemma EqualParts<T>(a1: seq<T>, a2: seq<T>, b1: seq<T>, b2: seq<T>)
    requires |a1| == |b1|
    ensures a1 + a2 == b1 + b2 <==> a1 == b1 && a2 == b2
  {
    assert (a1 + a2)[..|a1|] == a1 && (a1 + a2)[|a1|..] == a2;
    assert (b1 + b2)[..|b1|] == b1 && (b1 + b2)[|b1|..] == b2;
  }

  predicate ScanTakesExtra(inv: Inventory, ns: string, own: set<string>, all: set<string>) {
    || AnyTakesExtra(inv.deployments, ns, own, all)
    || AnyTakesExtra(inv.statefulSets, ns, own, all)
    || AnyTakesExtra(inv.daemonSets, ns, own, all)
  }

  lemma ScanTheSame(inv: Inventory, ns: string, own: set<string>, all: set<string>)
    requires own <= all && ns != ""
    ensures Scan(inv, ns, own) == Scan(inv, ns, all) <==> !ScanTakesExtra(inv, ns, own, all)
    ensures |Scan(inv, ns, own)| == |Scan(inv, ns, all)|
  {
    ScannedTheSame(DeploymentKind, inv.deployments, ns, own, all);
    ScannedTheSame(StatefulSetKind, inv.statefulSets, ns, own, all);
    ScannedTheSame(DaemonSetKind, inv.daemonSets, ns, own, all);
    var d1, d2 := Scanned(DeploymentKind, inv.deployments, ns, own), Scanned(DeploymentKind, inv.deployments, ns, all);
    var s1 := Scanned(StatefulSetKind, inv.statefulSets, ns, own);
    var s2 := Scanned(StatefulSetKind, inv.statefulSets, ns, all);
    var m1, m2 := Scanned(DaemonSetKind, inv.daemonSets, ns, own), Scanned(DaemonSetKind, inv.daemonSets, ns, all);
    EqualParts(d1, s1, d2, s2);
    EqualParts(d1 + s1, m1, d2 + s2, m2);
  }

  // ---- The two listings -------------------------------------------------------------------

  /** The condition under which the listing of a namespace is its part of the listing of all: the namespace has no
      flags; or it is a system namespace without workloads; or it is neither and no workload of it takes in a whole
      ConfigMap that is managed in a namespace scanned before, but not in its own. */
  predicate SameInBoth(inv: Inventory, names: seq<string>, a: Answers, ns: string) {
    var own := Loaded({}, ManagedIn(a, ns));
    || ns !in names
    || (if ns in SYSTEM_NAMESPACES then Scan(inv, ns, own) == []
        else !ScanTakesExtra(inv, ns, own, ManagedAt({}, names, a, ns)))
  }

  lemma FoundInBoth(inv: Inventory, names: seq<string>, a: Answers, ns: string)
    requires a.failing == {} && ns != "" && "" !in names && Distinct(names)
    ensures Only(ScanAll(inv, names, a, {}), ns) == Listed(inv, names, a, ns).value <==> SameInBoth(inv, names, a, ns)
  {
    OnlyOfScanAll(inv, names, a, {}, ns);
    if ns in names && ns !in SYSTEM_NAMESPACES {
      OwnSetIsGathered({}, names, a, ns);
      ScanTheSame(inv, ns, Loaded({}, ManagedIn(a, ns)), ManagedAt({}, names, a, ns));
    }
  }

  lemma {:induction false} PartIsBare(ws: seq<Workload>, names: seq<string>, ns: string)
    requires Bare(ws, names)
    ensures Bare(Only(ws, ns), names)
  {
    if ws != [] { PartIsBare(ws[..|ws| - 1], names, ns); }
  }

  /** The listing of one namespace is that namespace's part of the listing of all, flags and containers included,
      exactly under the condition above. */
  lemma ListingsAgree(inv: Inventory, source: FlagSource, names: seq<string>, a: Answers, ns: string)
    requires source.failing == {} && a.failing == {} && ns != "" && "" !in names && Allowed(names, source)
    ensures Only(Enriched(source, Listed(inv, names, a, "").value), ns)
         == Enriched(source, Listed(inv, names, a, ns).value)
      <==> SameInBoth(inv, names, a, ns)
  {
    var all, one := ScanAll(inv, names, a, {}), Listed(inv, names, a, ns).value;
    ScanAllShape(inv, names, a, {});
    ScanShape(inv, ns, Loaded({}, ManagedIn(a, ns)));
    EnrichedIsNaive(source, all);
    EnrichedIsNaive(source, one);
    OnlyOfEnriched(all, source.flags, ns);
    FoundInBoth(inv, names, a, ns);
    PartIsBare(all, names, ns);
    if NaiveLabelled(Only(all, ns), source.flags) == NaiveLabelled(one, source.flags) {
      assert Bare(one, names) by { assert ns in names ==> Bare(one, [ns]); }
      LabellingIsInjective(Only(all, ns), one, source.flags, names);
    }
  }

  // ---- What is skipped and what is gathered -----------------------------------------------

  /** The namespace is not one of Kubernetes' own. */
  predicate Visited(ns: string) {
    ns != "kube-system" && ns != "kube-public" && ns != "kube-node-lease" && ns != "local-path-storage"
  }

  lemma SystemAreNotVisited(ns: string)
    ensures ns in SYSTEM_NAMESPACES <==> !Visited(ns)
  {
  }

  /** Kubernetes' own namespaces and those that cannot be scanned are left out of a cluster-wide scan; every other
      namespace of the list is in it. */
  lemma SystemAreSkipped(inv: Inventory, names: seq<string>, a: Answers, ns: string)
    requires Distinct(names) && "" !in names
    ensures Only(ScanAll(inv, names, a, {}), ns) ==
      if ns in names && ns !in a.failing && Visited(ns) then Scan(inv, ns, ManagedAt({}, names, a, ns)) else []
  {
    OnlyOfScanAll(inv, names, a, {}, ns);
    SystemAreNotVisited(ns);
  }

  /** From position i on, no visited namespace fails to list its ConfigMaps. */
  predicate NoLossFrom(names: seq<string>, a: Answers, i: nat) {
    forall j | i <= j < |names| && Visited(names[j]) :: names[j] in a.managed
  }

  lemma NoLossOneMore(names: seq<string>, last: string, a: Answers, i: nat)
    requires i <= |names|
    ensures NoLossFrom(names + [last], a, i) <==> NoLossFrom(names, a, i) && (Visited(last) ==> last in a.managed)
  {
    var more := names + [last];
    assert more[|names|] == last;
    if NoLossFrom(more, a, i) {
      forall j | i <= j < |names| && Visited(names[j]) ensures names[j] in a.managed { assert more[j] == names[j]; }
    }
  }

  /** The namespace at i named the ConfigMap, and the set has not been lost since. */
  predicate GatheredAt(names: seq<string>, a: Answers, i: nat, cm: string) {
    i < |names| && Visited(names[i]) && names[i] in a.managed && cm in a.managed[names[i]] && NoLossFrom(names, a, i)
  }

  /** A ConfigMap counts as managed after some namespaces exactly if one of them named it, or the scanner knew it at the
      start, and no namespace visited since then failed to list: a failing list forgets everything. */
  lemma {:induction false} GatheredIff(start: set<string>, names: seq<string>, a: Answers, cm: string)
    ensures cm in ManagedAfter(start, names, a) <==>
      (cm in start && NoLossFrom(names, a, 0)) || exists i :: GatheredAt(names, a, i, cm)
  {
    if names != [] {
      var n := |names| - 1;
      var front, last := names[..n], names[n];
      GatheredIff(start, front, a, cm);
      assert names == front + [last];
      NoLossOneMore(front, last, a, 0);
      forall i: nat | i < n ensures GatheredAt(names, a, i, cm)
        <==> GatheredAt(front, a, i, cm) && (Visited(last) ==> last in a.managed)
      {
        NoLossOneMore(front, last, a, i);
        assert names[i] == front[i];
      }
      NoLossOneMore(front, last, a, n);
      assert GatheredAt(names, a, n, cm) <==> Visited(last) && last in a.managed && cm in a.managed[last];
    }
  }
}
