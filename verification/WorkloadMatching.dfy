/** Which flags target which discovered workload: a selector cache filled namespace by namespace, in the arbitrary
    order of a Go map, against the plain question asked flag by flag. */
module WorkloadMatching {
  import opened Results
  import opened LabelSelectors
  import opened FeatureFlags
  import opened ContainerScan

  datatype Kind = DeploymentKind | StatefulSetKind | DaemonSetKind

  datatype Workload = Workload(
    kind: Kind, key: ObjectKey, replicas: int, labels: Labels, containers: seq<ContainerInfo>,
    matchingFlags: seq<string>)

  datatype NamedFlag = NamedFlag(key: ObjectKey, spec: FlagSpec)

  /** The flags of a cluster in listing order, and the namespaces whose listing fails. */
  datatype FlagSource = FlagSource(flags: seq<NamedFlag>, failing: set<string>)

  function InNamespace(flags: seq<NamedFlag>, ns: string): seq<NamedFlag> {
    if flags == [] then [] else
      var last := flags[|flags| - 1];
      InNamespace(flags[..|flags| - 1], ns) + (if ns == "" || last.key.ns == ns then [last] else [])
  }

  /** Listing "in namespace" with an empty name lists every namespace. */
  function ListFlags(source: FlagSource, ns: string): Option<seq<NamedFlag>> {
    if ns in source.failing then None else Some(InNamespace(source.flags, ns))
  }

  /** The selector of the first configured delivery. */
  function DeliverySelector(spec: FlagSpec): Option<LabelSelector> {
    match spec.delivery
    case None => None
    case Some(d) =>
      if d.envVar.Some? then d.envVar.value.selector
      else if d.configMap.Some? then d.configMap.value.selector
      else if d.sidecar.Some? then d.sidecar.value.selector
      else None
  }

  /** A flag targets a workload's labels when that selector is present, valid and matching. */
  predicate Aims(spec: FlagSpec, labels: Labels) {
    var ls := DeliverySelector(spec);
    ls.Some? && AsSelector(ls).Success? && Matches(AsSelector(ls).value, labels)
  }

  /** The plain answer: the flags of the workload's own namespace that aim at it, in list order. */
  function Naive(flags: seq<NamedFlag>, ns: string, labels: Labels): seq<string> {
    if flags == [] then [] else
      var last := flags[|flags| - 1];
      Naive(flags[..|flags| - 1], ns, labels)
      + (if last.key.ns == ns && Aims(last.spec, labels) then [last.key.name] else [])
  }

  // ---- The selector cache -----------------------------------------------------------------

  datatype FlagSelector = FlagSelector(name: string, ns: string, selector: Selector)

  function Hits(cache: seq<FlagSelector>, ns: string, labels: Labels): seq<string> {
    if cache == [] then [] else
      var last := cache[|cache| - 1];
      Hits(cache[..|cache| - 1], ns, labels)
      + (if last.ns == ns && Matches(last.selector, labels) then [last.name] else [])
  }

  lemma HitsOneMore(cache: seq<FlagSelector>, fs: FlagSelector, ns: string, labels: Labels)
    ensures Hits(cache + [fs], ns, labels)
      == Hits(cache, ns, labels) + if fs.ns == ns && Matches(fs.selector, labels) then [fs.name] else []
  {
    assert (cache + [fs])[..|cache|] == cache;
  }

  /** What the listing of the workload's own namespace contributes, once it is among those done. */
  ghost function FromOwn(source: FlagSource, done: set<string>, ns: string, labels: Labels): seq<string> {
    if ns in done && ns !in source.failing then Naive(source.flags, ns, labels) else []
  }

  /** What the listing of the empty namespace, which lists everything, contributes to the others. */
  ghost function FromAll(source: FlagSource, done: set<string>, ns: string, labels: Labels): seq<string> {
    if "" in done && ns != "" && "" !in source.failing then Naive(source.flags, ns, labels) else []
  }

  /** What a workload finds in a cache that was filled from the given namespaces: its own namespace's flags once
      for that namespace, and once more when the empty namespace was among them. */
  ghost function Expected(source: FlagSource, done: set<string>, ns: string, labels: Labels): seq<string> {
    FromOwn(source, done, ns, labels) + FromAll(source, done, ns, labels)
  }

  ghost predicate CacheFor(cache: seq<FlagSelector>, source: FlagSource, done: set<string>) {
    forall ns, labels :: Hits(cache, ns, labels) == Expected(source, done, ns, labels)
  }

  lemma NaiveOneMore(flags: seq<NamedFlag>, f: NamedFlag, ns: string, labels: Labels)
    ensures Naive(flags + [f], ns, labels)
      == Naive(flags, ns, labels) + if f.key.ns == ns && Aims(f.spec, labels) then [f.key.name] else []
  {
    assert (flags + [f])[..|flags|] == flags;
  }

  lemma {:induction false} NaiveOfListing(flags: seq<NamedFlag>, listed: string, ns: string, labels: Labels)
    ensures Naive(InNamespace(flags, listed), ns, labels)
      == if listed == "" || listed == ns then Naive(flags, ns, labels) else []
  {
    if flags != [] {
      var front, last := flags[..|flags| - 1], flags[|flags| - 1];
      NaiveOfListing(front, listed, ns, labels);
      if listed == "" || last.key.ns == listed {
        NaiveOneMore(InNamespace(front, listed), last, ns, labels);
      } else {
        assert InNamespace(flags, listed) == InNamespace(front, listed);
      }
    }
  }

  /** Adds the selectors of one listing. */
  method CacheListing(cache: seq<FlagSelector>, listing: seq<NamedFlag>) returns (r: seq<FlagSelector>)
    ensures forall ns, labels :: Hits(r, ns, labels) == Hits(cache, ns, labels) + Naive(listing, ns, labels)
  {
    r := cache;
    for k := 0 to |listing|
      invariant forall ns, labels :: Hits(r, ns, labels) == Hits(cache, ns, labels) + Naive(listing[..k], ns, labels)
    {
      assert listing[..k + 1][..k] == listing[..k];
      var f := listing[k];
      var ls := DeliverySelector(f.spec);
      if ls.None? { continue; }
      var sel := AsSelector(ls);
      if sel.Failure? { continue; }
      ghost var before := r;
      var fs := FlagSelector(f.key.name, f.key.ns, sel.value);
      r := r + [fs];
      forall ns, labels
        ensures Hits(r, ns, labels) == Hits(cache, ns, labels) + Naive(listing[..k + 1], ns, labels)
      {
        HitsOneMore(before, fs, ns, labels);
      }
    }
    assert listing[..|listing|] == listing;
  }

  lemma OwnGrows(source: FlagSource, done: set<string>, listed: string, ns: string, labels: Labels)
    requires listed !in done
    ensures if listed == ns
      then FromOwn(source, done, ns, labels) == [] && FromOwn(source, done + {listed}, ns, labels)
             == if ns in source.failing then [] else Naive(source.flags, ns, labels)
      else FromOwn(source, done + {listed}, ns, labels) == FromOwn(source, done, ns, labels)
  {
  }

  lemma AllGrows(source: FlagSource, done: set<string>, listed: string, ns: string, labels: Labels)
    requires listed !in done
    ensures if listed == "" && ns != ""
      then FromAll(source, done, ns, labels) == [] && FromAll(source, done + {listed}, ns, labels)
             == if "" in source.failing then [] else Naive(source.flags, ns, labels)
      else FromAll(source, done + {listed}, ns, labels) == FromAll(source, done, ns, labels)
  {
  }

  /** Two contributions, each either nothing or the same names, can be joined in either order. */
  lemma JoinEitherWay<T>(a: seq<T>, b: seq<T>, names: seq<T>)
    requires (a == [] || a == names) && (b == [] || b == names)
    ensures a + b == b + a
  {
    assert a + [] == a && [] + b == b && b + [] == b && [] + a == a;
  }

  lemma JoinNothing<T>(a: seq<T>)
    ensures a + [] == a && [] + a == a
  {
  }

  /** One more namespace: its listing is added, and where it repeats flags the two passes add the same names. */
  lemma ExpectedGrows(source: FlagSource, done: set<string>, listed: string, ns: string, labels: Labels)
    requires listed !in done
    ensures Expected(source, done + {listed}, ns, labels)
      == Expected(source, done, ns, labels)
         + if listed in source.failing then [] else Naive(InNamespace(source.flags, listed), ns, labels)
  {
    NaiveOfListing(source.flags, listed, ns, labels);
    OwnGrows(source, done, listed, ns, labels);
    AllGrows(source, done, listed, ns, labels);
    var own, all := FromOwn(source, done, ns, labels), FromAll(source, done, ns, labels);
    var own', all' := FromOwn(source, done + {listed}, ns, labels), FromAll(source, done + {listed}, ns, labels);
    if listed == ns {
      JoinNothing(all);
      JoinEitherWay(own', all, Naive(source.flags, ns, labels));
    } else if listed == "" {
      JoinNothing(own);
    } else {
      JoinNothing(own + all);
    }
  }

  /** The namespace loop. A namespace that cannot be listed is skipped. */
  method BuildCache(source: FlagSource, namespaces: set<string>) returns (cache: seq<FlagSelector>)
    ensures CacheFor(cache, source, namespaces)
  {
    cache := [];
    var rest := namespaces;
    while rest != {}
      invariant rest <= namespaces
      invariant CacheFor(cache, source, namespaces - rest)
      decreases rest
    {
      var ns :| ns in rest;
      ghost var done, before := namespaces - rest, cache;
      var listing := ListFlags(source, ns);
      if listing.Some? {
        cache := CacheListing(cache, listing.value);
      }
      rest := rest - {ns};
      assert namespaces - rest == done + {ns};
      CacheGrows(before, cache, source, done, ns);
    }
  }

  lemma CacheGrows(
      before: seq<FlagSelector>, after: seq<FlagSelector>, source: FlagSource, done: set<string>, listed: string)
    requires CacheFor(before, source, done) && listed !in done
    requires listed in source.failing ==> after == before
    requires listed !in source.failing ==> forall ns, labels ::
      Hits(after, ns, labels) == Hits(before, ns, labels) + Naive(InNamespace(source.flags, listed), ns, labels)
    ensures CacheFor(after, source, done + {listed})
  {
    forall ns, labels ensures Hits(after, ns, labels) == Expected(source, done + {listed}, ns, labels) {
      assert Hits(before, ns, labels) == Expected(source, done, ns, labels);
      ExpectedGrows(source, done, listed, ns, labels);
    }
  }

  ghost function NamespacesOf(workloads: seq<Workload>): set<string> {
    set i | 0 <= i < |workloads| :: workloads[i].key.ns
  }

  function Labelled(w: Workload, names: seq<string>): Workload {
    w.(matchingFlags := w.matchingFlags + names)
  }

  /** The inner matching loop, on one workload through its index. */
  method Attach(cache: seq<FlagSelector>, workloads: array<Workload>, i: nat)
    requires i < workloads.Length
    modifies workloads
    ensures workloads[..] == old(workloads[..])[i :=
      Labelled(old(workloads[i]), Hits(cache, old(workloads[i]).key.ns, old(workloads[i]).labels))]
  {
    ghost var wl := workloads[i];
    assert Labelled(wl, []) == wl;
    for k := 0 to |cache|
      invariant workloads[..] == old(workloads[..])[i := Labelled(wl, Hits(cache[..k], wl.key.ns, wl.labels))]
    {
      assert cache[..k + 1][..k] == cache[..k];
      ghost var h := Hits(cache[..k], wl.key.ns, wl.labels);
      assert workloads[i] == workloads[..][i] == Labelled(wl, h);
      var fs := cache[k];
      HitsOneMore(cache[..k], fs, wl.key.ns, wl.labels);
      assert cache[..k] + [fs] == cache[..k + 1];
      if fs.ns == workloads[i].key.ns && Matches(fs.selector, workloads[i].labels) {
        workloads[i] := workloads[i].(matchingFlags := workloads[i].matchingFlags + [fs.name]);
        assert wl.matchingFlags + h + [fs.name] == wl.matchingFlags + (h + [fs.name]);
      } else {
        assert h + [] == h;
      }
    }
    assert cache[..|cache|] == cache;
  }

  ghost function Enriched(source: FlagSource, ws: seq<Workload>): (r: seq<Workload>)
    ensures |r| == |ws|
    ensures forall i | 0 <= i < |r| ::
      r[i] == Labelled(ws[i], Expected(source, NamespacesOf(ws), ws[i].key.ns, ws[i].labels))
  {
    seq(|ws|, i requires 0 <= i < |ws| =>
      Labelled(ws[i], Expected(source, NamespacesOf(ws), ws[i].key.ns, ws[i].labels)))
  }

  /** `enrichWithMatchingFlags`: appends to every workload, in place, the flags that target it. */
  method Enrich(source: FlagSource, workloads: array<Workload>)
    modifies workloads
    ensures workloads[..] == Enriched(source, old(workloads[..]))
  {
    var nsSet: set<string> := {};
    for i := 0 to workloads.Length
      invariant nsSet == set j | 0 <= j < i :: workloads[j].key.ns
    {
      nsSet := nsSet + {workloads[i].key.ns};
    }
    ghost var start := workloads[..];
    assert nsSet == NamespacesOf(start);
    var cache := BuildCache(source, nsSet);
    for i := 0 to workloads.Length
      invariant forall j | i <= j < workloads.Length :: workloads[j] == start[j]
      invariant forall j | 0 <= j < i ::
        workloads[j] == Labelled(start[j], Expected(source, nsSet, start[j].key.ns, start[j].labels))
    {
      ghost var before := workloads[..];
      Attach(cache, workloads, i);
      assert forall j | 0 <= j < workloads.Length && j != i :: workloads[..][j] == before[j];
      assert workloads[..][i] == Labelled(start[i], Hits(cache, start[i].key.ns, start[i].labels));
    }
  }

  /** The cache refines the plain answer. Every workload object of Kubernetes has a namespace; then, for every order of
      the namespace loop, each listed workload gets exactly the plain answer, or nothing when the flags of its namespace
      cannot be listed. */
  lemma NamedListings(source: FlagSource, workloads: seq<Workload>, w: Workload)
    requires w in workloads && "" !in NamespacesOf(workloads)
    ensures Expected(source, NamespacesOf(workloads), w.key.ns, w.labels)
      == if w.key.ns in source.failing then [] else Naive(source.flags, w.key.ns, w.labels)
  {
    var i :| 0 <= i < |workloads| && workloads[i] == w;
    assert w.key.ns in NamespacesOf(workloads);
    var plain := Naive(source.flags, w.key.ns, w.labels);
    assert plain + [] == plain;
  }

  /** For lists that no cluster gives, the exact condition: no workload of the list has an empty namespace, or the
      workload at hand is one, or nothing aims at it anyway. */
  lemma CacheRefinesNaive(source: FlagSource, workloads: seq<Workload>, w: Workload)
    requires w in workloads && w.key.ns !in source.failing
    ensures var plain := Naive(source.flags, w.key.ns, w.labels);
      Expected(source, NamespacesOf(workloads), w.key.ns, w.labels) == plain
      <==> ("" !in NamespacesOf(workloads) || "" in source.failing || w.key.ns == "" || plain == [])
  {
    var plain := Naive(source.flags, w.key.ns, w.labels);
    var i :| 0 <= i < |workloads| && workloads[i] == w;
    assert w.key.ns in NamespacesOf(workloads);
    if plain != [] { assert |plain + plain| != |plain|; }
    assert plain + [] == plain;
  }

  // ---- Which names are attached -----------------------------------------------------------

  /** Some flag of the list has this key and aims at the labels. */
  predicate SomeAims(flags: seq<NamedFlag>, key: ObjectKey, labels: Labels) {
    exists i :: 0 <= i < |flags| && flags[i].key == key && Aims(flags[i].spec, labels)
  }

  lemma SomeAimsOneMore(flags: seq<NamedFlag>, f: NamedFlag, key: ObjectKey, labels: Labels)
    ensures SomeAims(flags + [f], key, labels)
      <==> SomeAims(flags, key, labels) || (f.key == key && Aims(f.spec, labels))
  {
    var more := flags + [f];
    if SomeAims(flags, key, labels) {
      var i :| 0 <= i < |flags| && flags[i].key == key && Aims(flags[i].spec, labels);
      assert more[i] == flags[i];
    }
    assert more[|flags|] == f;
  }

  /** A name is in the plain answer exactly when a flag of that key aims at the labels. */
  lemma {:induction false} NaiveContains(flags: seq<NamedFlag>, ns: string, labels: Labels, name: string)
    ensures name in Naive(flags, ns, labels) <==> SomeAims(flags, ObjectKey(ns, name), labels)
  {
    if flags != [] {
      var front, last := flags[..|flags| - 1], flags[|flags| - 1];
      NaiveContains(front, ns, labels, name);
      assert flags == front + [last];
      SomeAimsOneMore(front, last, ObjectKey(ns, name), labels);
    }
  }

  /** The listing of some workloads follows the order of the flags. */
  lemma {:induction false} NaiveJoin(a: seq<NamedFlag>, b: seq<NamedFlag>, ns: string, labels: Labels)
    ensures Naive(a + b, ns, labels) == Naive(a, ns, labels) + Naive(b, ns, labels)
  {
    if b == [] {
      assert a + b == a;
    } else {
      var front, last := b[..|b| - 1], b[|b| - 1];
      NaiveJoin(a, front, ns, labels);
      assert (a + b)[..|a + b| - 1] == a + front;
    }
  }

  predicate SelectedBy(selector: Option<LabelSelector>, labels: Labels) {
    selector.Some? && AsSelector(selector).Success? && Matches(AsSelector(selector).value, labels)
  }

  /** A listing of workloads that all have a namespace, with the flags of this workload's namespace at hand. */
  ghost predicate Enrichable(source: FlagSource, ws: seq<Workload>, i: nat) {
    i < |ws| && ws[i].matchingFlags == [] && "" !in NamespacesOf(ws) && ws[i].key.ns !in source.failing
  }

  lemma AttachedIsNaive(source: FlagSource, ws: seq<Workload>, i: nat)
    requires Enrichable(source, ws, i)
    ensures Enriched(source, ws)[i].matchingFlags == Naive(source.flags, ws[i].key.ns, ws[i].labels)
  {
    NamedListings(source, ws, ws[i]);
    assert [] + Naive(source.flags, ws[i].key.ns, ws[i].labels) == Naive(source.flags, ws[i].key.ns, ws[i].labels);
  }

  /** A flag of the workload's namespace is attached by its first configured channel alone, in the order environment,
      ConfigMap, sidecar: exactly if that channel has a selector that is valid and matches. A first channel without
      selector hides the later ones, and without any channel the flag is never attached. */
  lemma AttachedByFirstChannel(source: FlagSource, ws: seq<Workload>, i: nat, j: nat)
    requires Enrichable(source, ws, i) && j < |source.flags| && source.flags[j].key.ns == ws[i].key.ns
    requires forall m | 0 <= m < |source.flags| && source.flags[m].key == source.flags[j].key :: m == j
    ensures var f, labels := source.flags[j], ws[i].labels;
      var attached := f.key.name in Enriched(source, ws)[i].matchingFlags;
      match f.spec.delivery
      case None => !attached
      case Some(Delivery(Some(env), _, _)) =>
        && (attached <==> SelectedBy(env.selector, labels))
        && (env.selector == None ==> !attached)
      case Some(Delivery(None, Some(cm), _)) =>
        && (attached <==> SelectedBy(cm.selector, labels))
        && (cm.selector == None ==> !attached)
      case Some(Delivery(None, None, Some(sidecar))) => attached <==> SelectedBy(sidecar.selector, labels)
      case Some(Delivery(None, None, None)) => !attached
  {
    AttachedIfAims(source, ws, i, j);
    AimsByFirstChannel(source.flags[j].spec, ws[i].labels);
  }

  lemma AttachedIfAims(source: FlagSource, ws: seq<Workload>, i: nat, j: nat)
    requires Enrichable(source, ws, i) && j < |source.flags| && source.flags[j].key.ns == ws[i].key.ns
    requires forall m | 0 <= m < |source.flags| && source.flags[m].key == source.flags[j].key :: m == j
    ensures source.flags[j].key.name in Enriched(source, ws)[i].matchingFlags
      <==> Aims(source.flags[j].spec, ws[i].labels)
  {
    AttachedIsNaive(source, ws, i);
    var f := source.flags[j];
    NaiveContains(source.flags, f.key.ns, ws[i].labels, f.key.name);
    assert f.key == ObjectKey(f.key.ns, f.key.name);
    assert Aims(f.spec, ws[i].labels) ==> SomeAims(source.flags, f.key, ws[i].labels);
  }

  lemma AimsByFirstChannel(spec: FlagSpec, labels: Labels)
    ensures match spec.delivery
      case None => !Aims(spec, labels)
      case Some(Delivery(Some(env), _, _)) => Aims(spec, labels) <==> SelectedBy(env.selector, labels)
      case Some(Delivery(None, Some(cm), _)) => Aims(spec, labels) <==> SelectedBy(cm.selector, labels)
      case Some(Delivery(None, None, Some(sidecar))) => Aims(spec, labels) <==> SelectedBy(sidecar.selector, labels)
      case Some(Delivery(None, None, None)) => !Aims(spec, labels)
  {
  }

  /** Only flags of the workload's own namespace are attached, and nothing else about the workload changes. */
  lemma AttachedAreOwn(source: FlagSource, ws: seq<Workload>, i: nat, name: string)
    requires Enrichable(source, ws, i)
    ensures name in Enriched(source, ws)[i].matchingFlags ==>
      exists j :: 0 <= j < |source.flags| && source.flags[j].key == ObjectKey(ws[i].key.ns, name)
    ensures Enriched(source, ws)[i].(matchingFlags := []) == ws[i]
  {
    AttachedIsNaive(source, ws, i);
    NaiveContains(source.flags, ws[i].key.ns, ws[i].labels, name);
    assert ws[i].(matchingFlags := []) == ws[i];
  }
}
