/** Cluster, watcher, sidecar and SDK as one system: the watcher's handling of an event is the protocol's write and
    broadcast, or its delete. From the operator's status to the SDK's cache. */
module EndToEnd {
  import opened CacheAgreement
  import opened EnvProvider
  import opened FeatureFlags
  import opened OperatorReconcile
  import opened OperatorSpec
  import opened Results
  import opened Serving
  import opened SidecarStore
  import P = SidecarProtocol
  import W = WatchFold

  datatype Joint = Joint(watch: W.World, system: P.System)

  /** A change around the watcher, the watcher handling its next event, or a step of sidecar and client other than a
      write or a delete, which only the watcher makes. */
  datatype Event = Around(change: W.Event) | Handled | Below(step: P.Event)

  /** What handling an event makes the store do; the broadcast of a write is a step of its own. */
  function StoreStep(e: W.WatchEvent): seq<P.Event> {
    match e
    case Added(n, ff) => [P.Write(ResolveFlag(n, ff))]
    case Modified(n, ff) => [P.Write(ResolveFlag(n, ff))]
    case Deleted(n) => [P.Delete(n)]
    case Other => []
  }

  /** The watcher takes the next event only after the broadcast of the last one. */
  predicate Possible(j: Joint, e: Event) {
    match e
    case Around(we) => !we.Next? && W.Possible(j.watch, we)
    case Handled => W.Possible(j.watch, W.Next) && j.system.sidecar.pending.None?
    case Below(pe) => !pe.Write? && !pe.Delete? && P.Possible(j.system, pe)
  }

  /** The steps that an event is for the watcher, and for sidecar and client. */
  function WatchPart(e: Event): seq<W.Event> {
    match e case Around(we) => [we] case Handled => [W.Next] case Below(_) => []
  }

  function SystemPart(j: Joint, e: Event): seq<P.Event>
    requires Possible(j, e)
  {
    match e
    case Around(_) => []
    case Handled => StoreStep(j.watch.session.value.queue[0])
    case Below(pe) => [pe]
  }

  lemma PartsArePossible(j: Joint, e: Event)
    requires Possible(j, e)
    ensures W.ValidRun(j.watch, WatchPart(e)) && P.ValidRun(j.system, SystemPart(j, e))
  {
  }

  ghost function Step(j: Joint, e: Event): Joint
    requires Possible(j, e)
  {
    PartsArePossible(j, e);
    Joint(W.Run(j.watch, WatchPart(e)), P.Run(j.system, SystemPart(j, e)))
  }

  ghost predicate ValidRun(j: Joint, events: seq<Event>)
    decreases |events|
  {
    events == [] || (Possible(j, events[0]) && ValidRun(Step(j, events[0]), events[1..]))
  }

  ghost function Run(j: Joint, events: seq<Event>): Joint
    requires ValidRun(j, events)
    decreases |events|
  {
    if events == [] then j else Run(Step(j, events[0]), events[1..])
  }

  // ---- Both projections are runs ----------------------------------------------------------

  ghost function WatchRun(events: seq<Event>): seq<W.Event> {
    if events == [] then [] else WatchPart(events[0]) + WatchRun(events[1..])
  }

  ghost function SystemRun(j: Joint, events: seq<Event>): seq<P.Event>
    requires ValidRun(j, events)
    decreases |events|
  {
    if events == [] then [] else SystemPart(j, events[0]) + SystemRun(Step(j, events[0]), events[1..])
  }

  lemma OneStepRuns(w: W.World, we: W.Event, s: P.System, pe: P.Event)
    ensures W.ValidRun(w, [we]) <==> W.Possible(w, we)
    ensures W.Possible(w, we) ==> W.Run(w, [we]) == W.Step(w, we)
    ensures P.ValidRun(s, [pe]) <==> P.Possible(s, pe)
    ensures P.Possible(s, pe) ==> P.Run(s, [pe]) == P.Step(s, pe)
  {
    assert [we][1..] == [] && [pe][1..] == [];
  }

  lemma WatchPartFirst(w: W.World, part: seq<W.Event>, rest: seq<W.Event>)
    requires |part| <= 1 && W.ValidRun(w, part) && W.ValidRun(W.Run(w, part), rest)
    ensures W.ValidRun(w, part + rest) && W.Run(w, part + rest) == W.Run(W.Run(w, part), rest)
  {
    if part == [] {
      assert part + rest == rest;
    } else {
      assert part == [part[0]] && (part + rest)[1..] == rest;
      OneStepRuns(w, part[0], P.INIT, P.Broadcast);
    }
  }

  lemma SystemPartFirst(s: P.System, part: seq<P.Event>, rest: seq<P.Event>)
    requires |part| <= 1 && P.ValidRun(s, part) && P.ValidRun(P.Run(s, part), rest)
    ensures P.ValidRun(s, part + rest) && P.Run(s, part + rest) == P.Run(P.Run(s, part), rest)
  {
    if part == [] {
      assert part + rest == rest;
    } else {
      assert part == [part[0]] && (part + rest)[1..] == rest;
      OneStepRuns(W.World(map[], map[], None, {}), W.Next, s, part[0]);
    }
  }

  lemma {:induction false} RunProjects(j: Joint, events: seq<Event>)
    requires ValidRun(j, events)
    ensures W.ValidRun(j.watch, WatchRun(events)) && W.Run(j.watch, WatchRun(events)) == Run(j, events).watch
    ensures P.ValidRun(j.system, SystemRun(j, events))
    ensures P.Run(j.system, SystemRun(j, events)) == Run(j, events).system
    decreases |events|
  {
    if events != [] {
      var e, t := events[0], Step(j, events[0]);
      RunProjects(t, events[1..]);
      PartsArePossible(j, e);
      WatchPartFirst(j.watch, WatchPart(e), WatchRun(events[1..]));
      SystemPartFirst(j.system, SystemPart(j, e), SystemRun(t, events[1..]));
    }
  }

  // ---- One store --------------------------------------------------------------------------

  /** The map that the watcher folds into is the map that the sidecar serves. */
  predicate OneStore(j: Joint) {
    j.watch.store == j.system.sidecar.flags
  }

  lemma BelowKeepsFlags(s: P.System, e: P.Event)
    requires P.Possible(s, e) && !e.Write? && !e.Delete?
    ensures P.Step(s, e).sidecar.flags == s.sidecar.flags
  {
  }

  lemma AroundKeepsStore(w: W.World, e: W.Event)
    requires W.Possible(w, e) && !e.Next?
    ensures W.Step(w, e).store == w.store
  {
  }

  lemma HandlingWritesStore(j: Joint)
    requires Possible(j, Handled) && OneStore(j)
    ensures OneStore(Step(j, Handled))
  {
    var e := j.watch.session.value.queue[0];
    if StoreStep(e) != [] {
      OneStepRuns(j.watch, W.Next, j.system, StoreStep(e)[0]);
      assert StoreStep(e) == [StoreStep(e)[0]];
    } else {
      OneStepRuns(j.watch, W.Next, j.system, P.Broadcast);
    }
  }

  lemma StepKeepsOneStore(j: Joint, e: Event)
    requires Possible(j, e) && OneStore(j)
    ensures OneStore(Step(j, e))
  {
    match e
    case Around(we) =>
      OneStepRuns(j.watch, we, j.system, P.Broadcast);
      AroundKeepsStore(j.watch, we);
    case Handled => HandlingWritesStore(j);
    case Below(pe) =>
      OneStepRuns(j.watch, W.Next, j.system, pe);
      BelowKeepsFlags(j.system, pe);
  }

  lemma {:induction false} RunKeepsOneStore(j: Joint, events: seq<Event>)
    requires ValidRun(j, events) && OneStore(j)
    ensures OneStore(Run(j, events))
    decreases |events|
  {
    if events != [] {
      StepKeepsOneStore(j, events[0]);
      RunKeepsOneStore(Step(j, events[0]), events[1..]);
    }
  }

  // ---- From the status to the cache -------------------------------------------------------

  function Start(live: map<string, FeatureFlag>): Joint {
    Joint(W.World(live, map[], None, {}), P.INIT)
  }

  function Subscribed(j: Joint, id: nat): Joint
    requires P.Possible(j.system, P.Subscribe(id, true))
  {
    Joint(j.watch, P.Step(j.system, P.Subscribe(id, true)))
  }

  /** Any run up to a subscription with an empty cache and no outdated answer to be stored, then a calm run in which no
      fetch straddles an update. */
  ghost predicate GoodRun(
      live: map<string, FeatureFlag>, before: seq<Event>, id: nat, after: seq<Event>, odd: set<string>)
  {
    && ValidRun(Start(live), before)
    && var j := Run(Start(live), before);
    && P.Possible(j.system, P.Subscribe(id, true))
    && j.system.client.cache == map[] && Unstale(j.system, odd)
    && P.FetchesWithin(SystemRun(Start(live), before), odd)
    && var s := Subscribed(j, id);
    && ValidRun(s, after)
    && var steps := SystemRun(s, after);
    && P.ValidRun(s.system, steps)
    && P.FetchesWithin(steps, odd) && NoStraddles(s.system, steps) && CalmRun(s.system, steps, id)
  }

  ghost function EndOf(
      live: map<string, FeatureFlag>, before: seq<Event>, id: nat, after: seq<Event>, odd: set<string>): Joint
    requires GoodRun(live, before, id, after, odd)
  {
    Run(Subscribed(Run(Start(live), before), id), after)
  }

  /** The watch has caught up and everything on its way to the client has been read. */
  ghost predicate Quiet(j: Joint, id: nat) {
    && j.watch.session == Some(W.Session([], true))
    && id in j.system.sidecar.subs && Queue(j.system, id) == []
  }

  lemma RunKeepsStore(j: Joint, events: seq<Event>)
    requires ValidRun(j, events) && OneStore(j) && W.Tracking(j.watch)
    ensures OneStore(Run(j, events)) && W.Tracking(Run(j, events).watch)
  {
    RunProjects(j, events);
    W.RunKeepsTracking(j.watch, WatchRun(events));
    RunKeepsOneStore(j, events);
  }

  lemma EndStore(live: map<string, FeatureFlag>, before: seq<Event>, id: nat, after: seq<Event>, odd: set<string>)
    requires GoodRun(live, before, id, after, odd)
    ensures OneStore(EndOf(live, before, id, after, odd)) && W.Tracking(EndOf(live, before, id, after, odd).watch)
  {
    RunKeepsStore(Start(live), before);
    var j := Run(Start(live), before);
    BelowKeepsFlags(j.system, P.Subscribe(id, true));
    RunKeepsStore(Subscribed(j, id), after);
  }

  lemma EndCache(live: map<string, FeatureFlag>, before: seq<Event>, id: nat, after: seq<Event>, odd: set<string>)
    requires GoodRun(live, before, id, after, odd) && Quiet(EndOf(live, before, id, after, odd), id)
    ensures var end := EndOf(live, before, id, after, odd).system; Agrees(end.sidecar.flags, end.client.cache, odd)
  {
    var s := Subscribed(Run(Start(live), before), id);
    RunProjects(Start(live), before);
    RunProjects(s, after);
    DrainedCacheAgrees(SystemRun(Start(live), before), id, SystemRun(s, after), odd);
  }

  /** The SDK's entry under a name, read off the flag's spec and status. */
  predicate ShowsFlag(cached: Flag, n: string, ff: FeatureFlag) {
    && cached.name == n
    && cached.disabled == ff.spec.disabled
    && cached.value == (if ff.status.currentValue == "" then ff.spec.defaultValue else ff.status.currentValue)
    && cached.flagType == match ff.spec.flagType
                          case Boolean => "boolean"
                          case String => "string"
                          case Integer => "integer"
                          case Json => "json"
                          case OtherType(text) => text
  }

  /** At rest after a good run, every cached flag shows the live flag of its name in its current version: name, type,
      disabled bit, and the status value, or the spec's default where that is empty. The exceptions are a flag that is
      gone and whose deletion the watch missed, and an odd name. */
  lemma CacheShowsCluster(
      live: map<string, FeatureFlag>, before: seq<Event>, id: nat, after: seq<Event>, odd: set<string>, n: string)
    requires GoodRun(live, before, id, after, odd) && Quiet(EndOf(live, before, id, after, odd), id)
    requires n in EndOf(live, before, id, after, odd).system.client.cache && n !in odd
    ensures var end := EndOf(live, before, id, after, odd);
      if n in end.watch.live then ShowsFlag(end.system.client.cache[n], n, end.watch.live[n])
      else n in end.watch.lost
  {
    EndStore(live, before, id, after, odd);
    EndCache(live, before, id, after, odd);
  }

  /** A flag that the watcher handled since the subscription is in the cache. */
  lemma HandledIsCached(
      live: map<string, FeatureFlag>, before: seq<Event>, id: nat, after: seq<Event>, odd: set<string>, i: int)
    requires GoodRun(live, before, id, after, odd) && Quiet(EndOf(live, before, id, after, odd), id)
    requires var steps := SystemRun(Subscribed(Run(Start(live), before), id), after);
      0 <= i < |steps| && steps[i].Write?
    ensures SystemRun(Subscribed(Run(Start(live), before), id), after)[i].flag.name
      in EndOf(live, before, id, after, odd).system.client.cache
  {
    var s := Subscribed(Run(Start(live), before), id);
    RunProjects(s, after);
    var steps := SystemRun(s, after);
    WrittenIsComing(s.system, steps, id, steps[i].flag.name);
  }

  /** From the spec to the SDK: a reconcile has written the status, the cluster holds the flag in that version, the
      watch has caught up and the stream is drained. Then the cached entry of the flag has the value and the disabled
      bit of the spec. */
  lemma SpecReachesCache(
      c: Cluster, key: ObjectKey, a: Attempt,
      live: map<string, FeatureFlag>, before: seq<Event>, id: nat, after: seq<Event>, odd: set<string>)
    requires key in c.flags && Fits(c, key, a.listing) && a.faults.budget != Limited(0) && a.faults.statusOk
    requires GoodRun(live, before, id, after, odd) && Quiet(EndOf(live, before, id, after, odd), id)
    requires var end := EndOf(live, before, id, after, odd);
      && key.name in end.watch.live && end.watch.live[key.name] == Try(c, key, a).flags[key]
      && key.name in end.system.client.cache && key.name !in odd
    ensures var cached := EndOf(live, before, id, after, odd).system.client.cache[key.name];
      cached.value == c.flags[key].spec.defaultValue && cached.disabled == c.flags[key].spec.disabled
  {
    CacheShowsCluster(live, before, id, after, odd, key.name);
    ReconcileBringsUpToDate(c, key, a);
    ReconcileFrame(c, key, a);
  }

  // ---- Such runs exist --------------------------------------------------------------------

  function Lift(steps: seq<P.Event>): (r: seq<Event>)
    ensures |r| == |steps| && forall i | 0 <= i < |r| :: r[i] == Below(steps[i])
  {
    seq(|steps|, i requires 0 <= i < |steps| => Below(steps[i]))
  }

  lemma EventFirst(j: Joint, e: Event, rest: seq<Event>)
    requires Possible(j, e) && ValidRun(Step(j, e), rest)
    ensures ValidRun(j, [e] + rest) && Run(j, [e] + rest) == Run(Step(j, e), rest)
    ensures SystemRun(j, [e] + rest) == SystemPart(j, e) + SystemRun(Step(j, e), rest)
  {
    assert ([e] + rest)[1..] == rest;
  }

  lemma {:induction false} LiftRuns(j: Joint, steps: seq<P.Event>)
    requires P.ValidRun(j.system, steps) && forall i | 0 <= i < |steps| :: !steps[i].Write? && !steps[i].Delete?
    ensures ValidRun(j, Lift(steps)) && SystemRun(j, Lift(steps)) == steps
    ensures Run(j, Lift(steps)) == Joint(j.watch, P.Run(j.system, steps))
    decreases |steps|
  {
    if steps != [] {
      var e, rest := Below(steps[0]), steps[1..];
      OneStepRuns(j.watch, W.Next, j.system, steps[0]);
      assert Step(j, e) == Joint(j.watch, P.Step(j.system, steps[0]));
      LiftRuns(Step(j, e), rest);
      EventFirst(j, e, Lift(rest));
      assert Lift(steps) == [e] + Lift(rest) && steps == [steps[0]] + rest;
    }
  }

  lemma {:induction false} MovesNeverStraddle(s: P.System, steps: seq<P.Event>)
    requires P.ValidRun(s, steps) && forall i | 0 <= i < |steps| :: !steps[i].Write? && !steps[i].Delete?
    ensures NoStraddles(s, steps)
    decreases |steps|
  {
    if steps != [] { MovesNeverStraddle(P.Step(s, steps[0]), steps[1..]); }
  }

  /** The watcher lists one flag and writes it. */
  lemma FlagIsWritten(s: Joint, n: string, ff: FeatureFlag)
    requires s.watch == W.World(map[n := ff], map[], None, {}) && s.system.sidecar.pending.None?
    ensures var open := Around(W.Open([n], true));
      && Possible(s, open) && SystemPart(s, open) == []
      && Possible(Step(s, open), Handled)
      && SystemPart(Step(s, open), Handled) == [P.Write(ResolveFlag(n, ff))]
      && Step(Step(s, open), Handled).watch.session == Some(W.Session([], true))
      && Step(Step(s, open), Handled).watch.live == map[n := ff]
      && Step(Step(s, open), Handled).system == P.Step(s.system, P.Write(ResolveFlag(n, ff)))
  {
    OneStepRuns(s.watch, W.Open([n], true), s.system, P.Write(ResolveFlag(n, ff)));
    var t := Step(s, Around(W.Open([n], true)));
    assert t.watch.session.value.queue == [W.Added(n, ff)] && [W.Added(n, ff)][1..] == [];
    OneStepRuns(t.watch, W.Next, t.system, P.Write(ResolveFlag(n, ff)));
  }

  lemma WriteThenMoves(s: P.System, f: ResolvedFlag, id: nat, moves: seq<P.Event>)
    requires s.sidecar.pending.None? && s.client.fetches == map[]
    requires P.ValidRun(P.Step(s, P.Write(f)), moves) && CalmRun(P.Step(s, P.Write(f)), moves, id)
    requires forall i | 0 <= i < |moves| :: Moves(moves[i], id)
    ensures P.ValidRun(s, [P.Write(f)] + moves) && CalmRun(s, [P.Write(f)] + moves, id)
    ensures NoStraddles(s, [P.Write(f)] + moves) && P.FetchesWithin([P.Write(f)] + moves, {})
  {
    OneStepFirst(s, P.Write(f), moves, id);
    MovesNeverStraddle(P.Step(s, P.Write(f)), moves);
    assert ([P.Write(f)] + moves)[1..] == moves;
  }

  lemma ArrivalSteps(s: Joint, n: string, ff: FeatureFlag, moves: seq<P.Event>) returns (after: seq<Event>)
    requires s.watch == W.World(map[n := ff], map[], None, {}) && s.system.sidecar.pending.None?
    requires P.ValidRun(P.Step(s.system, P.Write(ResolveFlag(n, ff))), moves)
    requires forall i | 0 <= i < |moves| :: !moves[i].Write? && !moves[i].Delete?
    ensures ValidRun(s, after) && SystemRun(s, after) == [P.Write(ResolveFlag(n, ff))] + moves
    ensures Run(s, after).watch.session == Some(W.Session([], true))
    ensures Run(s, after).system == P.Run(P.Step(s.system, P.Write(ResolveFlag(n, ff))), moves)
  {
    var open := Around(W.Open([n], true));
    FlagIsWritten(s, n, ff);
    LiftRuns(Step(Step(s, open), Handled), moves);
    EventFirst(Step(s, open), Handled, Lift(moves));
    EventFirst(s, open, [Handled] + Lift(moves));
    after := [open] + ([Handled] + Lift(moves));
    assert [] + ([P.Write(ResolveFlag(n, ff))] + moves) == [P.Write(ResolveFlag(n, ff))] + moves;
  }

  /** For any flag there is a good run that ends at rest with the flag in the cache. */
  lemma FlagArrives(n: string, ff: FeatureFlag) returns (after: seq<Event>)
    ensures GoodRun(map[n := ff], [], 0, after, {}) && Quiet(EndOf(map[n := ff], [], 0, after, {}), 0)
    ensures var cache := EndOf(map[n := ff], [], 0, after, {}).system.client.cache;
      cache.Keys == {n} && ShowsFlag(cache[n], n, ff)
  {
    var s, f := Subscribed(Start(map[n := ff]), 0), ResolveFlag(n, ff);
    var t := P.Step(s.system, P.Write(f));
    assert Queue(t, 0) == [P.View(f)] && [P.View(f)][..0] == [];
    assert Apply(map[], [P.View(f)]) == map[n := P.View(f)];
    var moves := StreamDrains(t, 0);
    after := ArrivalSteps(s, n, ff, moves);
    WriteThenMoves(s.system, f, 0, moves);
  }
}
