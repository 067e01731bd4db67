/** The watcher that fills the sidecar's store: an initial list, then watch sessions that may break at any time. */
module WatchFold {
  import opened Results
  import opened FeatureFlags
  import opened SidecarStore

  /** `Other` stands for bookmarks, errors and objects that are not flags. */
  datatype WatchEvent =
    | Added(name: string, flag: FeatureFlag)
    | Modified(name: string, flag: FeatureFlag)
    | Deleted(name: string)
    | Other

  function Handle(flags: map<string, ResolvedFlag>, e: WatchEvent): map<string, ResolvedFlag> {
    match e
    case Added(n, ff) => flags[n := ResolveFlag(n, ff)]
    case Modified(n, ff) => flags[n := ResolveFlag(n, ff)]
    case Deleted(n) => flags - {n}
    case Other => flags
  }

  function Fold(flags: map<string, ResolvedFlag>, events: seq<WatchEvent>): map<string, ResolvedFlag> {
    if events == [] then flags
    else Handle(Fold(flags, events[..|events| - 1]), events[|events| - 1])
  }

  /** The watch loop over the events of one session. */
  method Consume(store: FlagStore, events: seq<WatchEvent>)
    requires store.Valid()
    modifies store`flags, store.subscribers
    ensures store.Valid() && store.flags == Fold(old(store.flags), events)
  {
    for i := 0 to |events|
      invariant store.Valid() && store.flags == Fold(old(store.flags), events[..i])
    {
      assert events[..i + 1][..i] == events[..i];
      match events[i] {
        case Added(n, ff) => store.Set(ResolveFlag(n, ff));
        case Modified(n, ff) => store.Set(ResolveFlag(n, ff));
        case Deleted(n) => store.Delete(n);
        case Other =>
      }
    }
    assert events[..|events|] == events;
  }

  /** `queue` holds the events of the open session that are not yet handled. A session that only lists does not
      hear of later changes. `lost` holds the flags that are gone and whose deletion was never handled. */
  datatype Session = Session(queue: seq<WatchEvent>, watching: bool)

  datatype World = World(
    live: map<string, FeatureFlag>,
    store: map<string, ResolvedFlag>,
    session: Option<Session>,
    lost: set<string>)

  datatype Event =
    | Put(name: string, flag: FeatureFlag)
    | Remove(name: string)
    | Noise
    | Open(order: seq<string>, watching: bool)
    | Next
    | Break

  predicate IsOrder(live: map<string, FeatureFlag>, order: seq<string>) {
    (forall i | 0 <= i < |order| :: order[i] in live) && (forall n | n in live :: n in order)
  }

  predicate Possible(w: World, e: Event) {
    match e
    case Put(_, _) => true
    case Remove(n) => n in w.live
    case Noise => w.session.Some?
    case Open(order, _) => w.session.None? && IsOrder(w.live, order)
    case Next => w.session.Some? && w.session.value.queue != []
    case Break => w.session.Some?
  }

  function Append(w: World, e: WatchEvent): Option<Session> {
    if w.session.Some? && w.session.value.watching
    then Some(w.session.value.(queue := w.session.value.queue + [e])) else w.session
  }

  function Snapshot(live: map<string, FeatureFlag>, order: seq<string>): (r: seq<WatchEvent>)
    requires forall i | 0 <= i < |order| :: order[i] in live
    ensures |r| == |order| && forall i | 0 <= i < |r| :: r[i] == Added(order[i], live[order[i]])
  {
    seq(|order|, i requires 0 <= i < |order| => Added(order[i], live[order[i]]))
  }

  function Deletions(queue: seq<WatchEvent>): set<string> {
    set i | 0 <= i < |queue| && queue[i].Deleted? :: queue[i].name
  }

  function Step(w: World, e: Event): World
    requires Possible(w, e)
  {
    match e
    case Put(n, ff) =>
      w.(live := w.live[n := ff], lost := w.lost - {n},
         session := Append(w, if n in w.live then Modified(n, ff) else Added(n, ff)))
    case Remove(n) =>
      w.(live := w.live - {n}, session := Append(w, Deleted(n)),
         lost := if w.session.Some? && w.session.value.watching then w.lost else w.lost + {n})
    case Noise => w.(session := Some(w.session.value.(queue := w.session.value.queue + [Other])))
    case Open(order, watching) => w.(session := Some(Session(Snapshot(w.live, order), watching)))
    case Next =>
      var q := w.session.value.queue;
      w.(store := Handle(w.store, q[0]), session := Some(w.session.value.(queue := q[1..])))
    case Break => w.(session := None, lost := w.lost + (Deletions(w.session.value.queue) - w.live.Keys))
  }

  ghost predicate ValidRun(w: World, events: seq<Event>)
    decreases |events|
  {
    events == [] || (Possible(w, events[0]) && ValidRun(Step(w, events[0]), events[1..]))
  }

  ghost function Run(w: World, events: seq<Event>): World
    requires ValidRun(w, events)
    decreases |events|
  {
    if events == [] then w else Run(Step(w, events[0]), events[1..])
  }

  function Queue(w: World): seq<WatchEvent> {
    if w.session.Some? then w.session.value.queue else []
  }

  // ---- Invariant --------------------------------------------------------------------------

  /** Every live flag is present in its current version. */
  ghost predicate Current(live: map<string, FeatureFlag>, flags: map<string, ResolvedFlag>) {
    forall n | n in live :: n in flags && flags[n] == ResolveFlag(n, live[n])
  }

  ghost predicate Tracking(w: World) {
    && (forall n | n in w.store :: w.store[n].name == n)
    && w.lost !! w.live.Keys
    && (forall n | n in Fold(w.store, Queue(w)) :: n in w.live || n in w.lost)
    && (w.session.Some? && w.session.value.watching ==> Current(w.live, Fold(w.store, Queue(w))))
  }

  lemma {:induction false} FoldFirst(flags: map<string, ResolvedFlag>, queue: seq<WatchEvent>)
    requires queue != []
    ensures Fold(Handle(flags, queue[0]), queue[1..]) == Fold(flags, queue)
  {
    if |queue| > 1 {
      var front := queue[..|queue| - 1];
      FoldFirst(flags, front);
      assert front[1..] == queue[1..][..|queue[1..]| - 1];
    } else {
      assert queue[..0] == [];
    }
  }

  lemma FoldLast(flags: map<string, ResolvedFlag>, queue: seq<WatchEvent>, e: WatchEvent)
    ensures Fold(flags, queue + [e]) == Handle(Fold(flags, queue), e)
  {
    assert (queue + [e])[..|queue|] == queue;
  }

  /** A stored flag is only folded away by a deletion in the queue. */
  lemma {:induction false} FoldKeeps(flags: map<string, ResolvedFlag>, queue: seq<WatchEvent>, n: string)
    requires n in flags && n !in Deletions(queue)
    ensures n in Fold(flags, queue)
  {
    if queue != [] {
      var front := queue[..|queue| - 1];
      forall i | 0 <= i < |front| && front[i].Deleted? ensures front[i].name != n { assert queue[i] == front[i]; }
      FoldKeeps(flags, front, n);
    }
  }

  /** What a snapshot leaves in the store: the listed flags in their current version, beside what was there. */
  ghost predicate Mirrors(
      f: map<string, ResolvedFlag>, flags: map<string, ResolvedFlag>,
      live: map<string, FeatureFlag>, order: seq<string>)
    requires forall i | 0 <= i < |order| :: order[i] in live
  {
    && (forall n | n in order :: n in f && f[n] == ResolveFlag(n, live[n]))
    && (forall n | n in f :: n in flags || n in order)
  }

  lemma MirrorsOneMore(
      f: map<string, ResolvedFlag>, flags: map<string, ResolvedFlag>,
      live: map<string, FeatureFlag>, order: seq<string>,
      n: string)
    requires (forall i | 0 <= i < |order| :: order[i] in live) && n in live && Mirrors(f, flags, live, order)
    ensures Mirrors(f[n := ResolveFlag(n, live[n])], flags, live, order + [n])
  {
  }

  lemma {:induction false} FoldSnapshot(
      flags: map<string, ResolvedFlag>, live: map<string, FeatureFlag>, order: seq<string>)
    requires forall i | 0 <= i < |order| :: order[i] in live
    ensures Mirrors(Fold(flags, Snapshot(live, order)), flags, live, order)
  {
    if order != [] {
      var front, n := order[..|order| - 1], order[|order| - 1];
      FoldSnapshot(flags, live, front);
      assert Snapshot(live, order) == Snapshot(live, front) + [Added(n, live[n])];
      FoldLast(flags, Snapshot(live, front), Added(n, live[n]));
      MirrorsOneMore(Fold(flags, Snapshot(live, front)), flags, live, front, n);
      assert order == front + [n];
    }
  }

  /** A change in the cluster adds at most one event to the queue: either the session watches and folds it in, or the
      fold stays as it was. */
  lemma ChangeFolds(w: World, e: Event, news: WatchEvent)
    requires Possible(w, e)
    requires e.Noise? || Step(w, e).session == Append(w, news)
    requires e.Noise? ==> news == Other
    requires (e.Put? || e.Remove? || e.Noise?)
    ensures Step(w, e).store == w.store
    ensures Fold(w.store, Queue(Step(w, e))) ==
      if e.Noise? || (w.session.Some? && w.session.value.watching) then Handle(Fold(w.store, Queue(w)), news)
      else Fold(w.store, Queue(w))
  {
    FoldLast(w.store, Queue(w), news);
  }

  lemma PutKeepsTracking(w: World, n: string, ff: FeatureFlag)
    requires Tracking(w)
    ensures Tracking(Step(w, Put(n, ff)))
  {
    ChangeFolds(w, Put(n, ff), if n in w.live then Modified(n, ff) else Added(n, ff));
  }

  lemma RemoveKeepsTracking(w: World, n: string)
    requires n in w.live && Tracking(w)
    ensures Tracking(Step(w, Remove(n)))
  {
    ChangeFolds(w, Remove(n), Deleted(n));
  }

  lemma NoiseKeepsTracking(w: World)
    requires w.session.Some? && Tracking(w)
    ensures Tracking(Step(w, Noise))
  {
    ChangeFolds(w, Noise, Other);
  }

  lemma OpenKeepsTracking(w: World, e: Event)
    requires e.Open? && Possible(w, e) && Tracking(w)
    ensures Tracking(Step(w, e))
  {
    FoldSnapshot(w.store, w.live, e.order);
    assert Queue(w) == [] && Fold(w.store, []) == w.store;
  }

  lemma BreakKeepsTracking(w: World, e: Event)
    requires e.Break? && Possible(w, e) && Tracking(w)
    ensures Tracking(Step(w, e))
  {
    var t := Step(w, e);
    forall n | n in w.store ensures n in w.live || n in t.lost {
      if n !in Deletions(Queue(w)) { FoldKeeps(w.store, Queue(w), n); }
    }
    assert Fold(t.store, Queue(t)) == w.store;
  }

  lemma StepKeepsTracking(w: World, e: Event)
    requires Possible(w, e) && Tracking(w)
    ensures Tracking(Step(w, e))
  {
    match e
    case Next => FoldFirst(w.store, Queue(w));
    case Open(_, _) => OpenKeepsTracking(w, e);
    case Break => BreakKeepsTracking(w, e);
    case Put(n, ff) => PutKeepsTracking(w, n, ff);
    case Remove(n) => RemoveKeepsTracking(w, n);
    case Noise => NoiseKeepsTracking(w);
  }

  lemma {:induction false} RunKeepsTracking(w: World, events: seq<Event>)
    requires Tracking(w) && ValidRun(w, events)
    ensures Tracking(Run(w, events))
    decreases |events|
  {
    if events != [] {
      StepKeepsTracking(w, events[0]);
      RunKeepsTracking(Step(w, events[0]), events[1..]);
    }
  }

  /** Whenever a watch session is caught up: every live flag is served under its name with the type, disabled bit and
      description of its spec and with its status value, or the spec's default where that is empty; every key is its
      entry's name; and anything else served is a flag whose deletion was never handled. */
  lemma CaughtUp(live: map<string, FeatureFlag>, events: seq<Event>)
    requires ValidRun(World(live, map[], None, {}), events)
    requires var end := Run(World(live, map[], None, {}), events);
      end.session == Some(Session([], true))
    ensures var end := Run(World(live, map[], None, {}), events);
      && (forall n | n in end.live ::
            && n in end.store
            && end.store[n].name == n
            && end.store[n].flagType == end.live[n].spec.flagType
            && end.store[n].disabled == end.live[n].spec.disabled
            && end.store[n].description == end.live[n].spec.description
            && end.store[n].value == (if end.live[n].status.currentValue == "" then end.live[n].spec.defaultValue
                                      else end.live[n].status.currentValue))
      && (forall n | n in end.store :: end.store[n].name == n)
      && (forall n | n in end.store && n !in end.live :: n in end.lost)
  {
    RunKeepsTracking(World(live, map[], None, {}), events);
  }
}
