/** What the audit log says about the flags, over whole runs of the flag and cluster handlers. */
module FlagHistory {
  import opened Results
  import opened FeatureFlags
  import opened AuditLog
  import opened FlagHandlers
  import opened Text

  datatype Event = Event(request: Request, outside: Outside)

  function After(w: World, es: seq<Event>): World {
    if es == [] then w
    else
      var last := es[|es| - 1];
      Serve(After(w, es[..|es| - 1]), last.request, last.outside)
  }

  /** How many requests of the run were answered with success. */
  function Successes(w: World, es: seq<Event>): nat {
    if es == [] then 0
    else
      var front, last := es[..|es| - 1], es[|es| - 1];
      Successes(w, front) + (if Succeeds(After(w, front), last.request, last.outside) then 1 else 0)
  }

  /** Kubernetes holds only names without a slash. */
  predicate PlainKeys(w: World) {
    forall s, k | s in w.servers && k in w.servers[s] :: PlainKey(k)
  }

  lemma RequestKeepsPlainKeys(w: World, q: Request, o: Outside)
    requires PlainKeys(w)
    ensures PlainKeys(Serve(w, q, o))
  {
  }

  lemma FirstSlash(key: ObjectKey)
    requires PlainKey(key)
    ensures IndexOf(ResourceId(key), '/') == |key.ns|
  {
    assert forall j | 0 <= j < |key.ns| :: ResourceId(key)[j] == key.ns[j] && key.ns[j] != '/';
    assert ResourceId(key)[|key.ns|] == '/';
  }

  /** The text "namespace/name" determines a plain key. */
  lemma ResourceIdIsInjective(a: ObjectKey, b: ObjectKey)
    requires PlainKey(a) && PlainKey(b) && ResourceId(a) == ResourceId(b)
    ensures a == b
  {
    var s := ResourceId(a);
    FirstSlash(a);
    FirstSlash(b);
    assert s[..|a.ns|] == a.ns && s[..|b.ns|] == b.ns;
    assert s[|a.ns| + 1..] == a.name && s[|b.ns| + 1..] == b.name;
  }

  lemma {:induction false} RunKeepsPlainKeys(w: World, es: seq<Event>)
    requires PlainKeys(w)
    ensures PlainKeys(After(w, es))
  {
    if es != [] {
      RunKeepsPlainKeys(w, es[..|es| - 1]);
      RequestKeepsPlainKeys(After(w, es[..|es| - 1]), es[|es| - 1].request, es[|es| - 1].outside);
    }
  }

  // ---- One flag on one server -------------------------------------------------------------

  function FlagOn(w: World, server: string, k: ObjectKey): Option<FeatureFlag> {
    if k in FlagsOn(w, server) then Some(FlagsOn(w, server)[k]) else None
  }

  /** The flag as seen through an id. */
  function FlagAt(w: World, c: string, k: ObjectKey): Option<FeatureFlag> {
    if Live(w, c, k) then Some(FlagsOf(w, c)[k]) else None
  }

  /** The request names this flag and reaches this server. */
  predicate Hits(w: World, q: Request, server: string, k: ObjectKey) {
    ForFlags(q) && q.cluster in w.reach && w.reach[q.cluster] == server && q.key == k
  }

  /** A flag request shows through another id exactly if that id reaches the same server: then both see the same flags
      afterwards, otherwise the other id sees what it saw before. */
  lemma OtherIdsSee(w: World, q: Request, o: Outside, d: string, k: ObjectKey)
    requires ForFlags(q) && q.cluster in w.reach && d in w.reach
    ensures if w.reach[d] == w.reach[q.cluster]
      then FlagAt(Serve(w, q, o), d, k) == FlagAt(Serve(w, q, o), q.cluster, k)
      else FlagAt(Serve(w, q, o), d, k) == FlagAt(w, d, k)
  {
  }

  /** A request changes no flag of any server but the one it names on the server it reaches. A flag that it edits or
      toggles keeps its type, lifecycle and status; an edit keeps each field that its body leaves out, a toggle
      everything but the value. */
  lemma RequestFrame(w: World, q: Request, o: Outside, server: string, k: ObjectKey)
    ensures !Hits(w, q, server, k) ==> FlagOn(Serve(w, q, o), server, k) == FlagOn(w, server, k)
    ensures (q.Update? || q.Toggle?) && Hits(w, q, server, k) && FlagOn(w, server, k).Some? ==>
      var before, after := FlagOn(w, server, k).value, FlagOn(Serve(w, q, o), server, k).value;
      && after.status == before.status && after.spec.flagType == before.spec.flagType
      && after.spec.lifecycle == before.spec.lifecycle
      && (q.Toggle? || q.edit.description == None ==> after.spec.description == before.spec.description)
      && (q.Toggle? || q.edit.disabled == None ==> after.spec.disabled == before.spec.disabled)
      && (q.Toggle? || q.edit.delivery == None ==> after.spec.delivery == before.spec.delivery)
      && (q.Toggle? || q.edit.rules == None ==> after.spec.rules == before.spec.rules)
      && (q.Update? && q.edit.defaultValue == None ==> after.spec.defaultValue == before.spec.defaultValue)
      && (q.Toggle? && after != before ==> before.spec.flagType == Boolean)
  {
  }

  /** A success creates or deletes at most the flag that it hits. */
  lemma RequestMovesOneFlag(w: World, q: Request, o: Outside, server: string, k: ObjectKey)
    requires Succeeds(w, q, o)
    ensures FlagOn(Serve(w, q, o), server, k).Some? <==>
      (FlagOn(w, server, k).Some? && !(q.Delete? && Hits(w, q, server, k))) || (q.Create? && Hits(w, q, server, k))
    ensures ForFlags(q) ==> q.cluster in w.reach && (q.Create? || q.key in FlagsOn(w, w.reach[q.cluster]))
  {
  }

  // ---- Replaying the log ------------------------------------------------------------------

  type Pairs = set<(string, string)>

  /** The flags that exist: server, and "namespace/name". */
  function LivePairs(w: World): Pairs {
    set s, k | s in w.servers && k in w.servers[s] :: (s, ResourceId(k))
  }

  lemma LivePairsHold(w: World, s: string, k: ObjectKey)
    requires PlainKeys(w) && PlainKey(k)
    ensures (s, ResourceId(k)) in LivePairs(w) <==> FlagOn(w, s, k).Some?
  {
    if (s, ResourceId(k)) in LivePairs(w) {
      var k' :| s in w.servers && k' in w.servers[s] && ResourceId(k') == ResourceId(k);
      ResourceIdIsInjective(k, k');
    }
  }

  /** The effect of one event when its cluster is read as `at`. */
  function Apply(pairs: Pairs, at: string, e: AuditEvent): Pairs {
    if e.resource != "featureflag" then pairs
    else if e.action == "create" then pairs + {(at, e.resourceId)}
    else if e.action == "delete" then pairs - {(at, e.resourceId)}
    else pairs
  }

  /** Replaying a log, each event at the given place. */
  function Replay(start: Pairs, log: seq<AuditEvent>, at: seq<string>): Pairs
    requires |at| == |log|
  {
    if log == [] then start
    else
      var n := |log| - 1;
      Apply(Replay(start, log[..n], at[..n]), at[n], log[n])
  }

  /** The server that each success of a run reached; registrations and removals reach none. */
  function Reached(w: World, es: seq<Event>): (r: seq<string>)
    ensures |r| == Successes(w, es)
  {
    if es == [] then []
    else
      var front, last := es[..|es| - 1], es[|es| - 1];
      var before := After(w, front);
      Reached(w, front)
      + (if !Succeeds(before, last.request, last.outside) then []
         else if ForFlags(last.request) then [before.reach[last.request.cluster]] else [""])
  }

  lemma AppliedAreLive(w: World, q: Request, o: Outside, at: string, p: (string, string))
    requires PlainKeys(w) && Succeeds(w, q, o) && (ForFlags(q) ==> q.cluster in w.reach && at == w.reach[q.cluster])
    requires p in Apply(LivePairs(w), at, EventOf(q, o))
    ensures p in LivePairs(Serve(w, q, o))
  {
    if p in LivePairs(w) {
      var s, k :| s in w.servers && k in w.servers[s] && p == (s, ResourceId(k));
      RequestMovesOneFlag(w, q, o, s, k);
    } else {
      RequestMovesOneFlag(w, q, o, at, q.key);
    }
  }

  lemma LiveAreApplied(w: World, q: Request, o: Outside, at: string, p: (string, string))
    requires PlainKeys(w) && Succeeds(w, q, o) && (ForFlags(q) ==> q.cluster in w.reach && at == w.reach[q.cluster])
    requires p in LivePairs(Serve(w, q, o))
    ensures p in Apply(LivePairs(w), at, EventOf(q, o))
  {
    var w' := Serve(w, q, o);
    RequestKeepsPlainKeys(w, q, o);
    var s, k :| s in w'.servers && k in w'.servers[s] && p == (s, ResourceId(k));
    RequestMovesOneFlag(w, q, o, s, k);
    if q.Delete? && FlagOn(w, s, k).Some? && p == (at, ResourceId(q.key)) {
      ResourceIdIsInjective(k, q.key);
    }
  }

  /** One request moves exactly the pair of the server it reaches and the flag it names. */
  lemma ReplayStep(w: World, q: Request, o: Outside, at: string)
    requires PlainKeys(w) && Succeeds(w, q, o) && (ForFlags(q) ==> q.cluster in w.reach && at == w.reach[q.cluster])
    ensures Apply(LivePairs(w), at, EventOf(q, o)) == LivePairs(Serve(w, q, o))
  {
    forall p | p in Apply(LivePairs(w), at, EventOf(q, o)) ensures p in LivePairs(Serve(w, q, o)) {
      AppliedAreLive(w, q, o, at, p);
    }
    forall p | p in LivePairs(Serve(w, q, o)) ensures p in Apply(LivePairs(w), at, EventOf(q, o)) {
      LiveAreApplied(w, q, o, at, p);
    }
  }

  lemma {:induction false} LogGrows(w: World, es: seq<Event>)
    ensures w.log <= After(w, es).log
    ensures |After(w, es).log| == |w.log| + Successes(w, es)
  {
    if es != [] { LogGrows(w, es[..|es| - 1]); }
  }

  /** The events that a run appends. */
  function NewEvents(w: World, es: seq<Event>): (r: seq<AuditEvent>)
    ensures |r| == Successes(w, es)
  {
    LogGrows(w, es);
    After(w, es).log[|w.log|..]
  }

  lemma NewEventsGrow(w: World, es: seq<Event>)
    requires es != []
    ensures var front, last := es[..|es| - 1], es[|es| - 1];
      NewEvents(w, es) == NewEvents(w, front)
        + (if Succeeds(After(w, front), last.request, last.outside) then [EventOf(last.request, last.outside)] else [])
  {
    LogGrows(w, es[..|es| - 1]);
  }

  lemma ReplayOneMore(start: Pairs, log: seq<AuditEvent>, at: seq<string>, e: AuditEvent, place: string)
    requires |at| == |log|
    ensures Replay(start, log + [e], at + [place]) == Apply(Replay(start, log, at), place, e)
  {
    assert (log + [e])[..|log|] == log && (at + [place])[..|log|] == at;
  }

  /** Over any run of flag and cluster requests the log grows by exactly one event for each success and none for a
      failure, and replaying the create and delete events, each on the server that its request reached, on the flags
      that existed before gives exactly the flags that exist after. */
  lemma {:induction false} ReplayIsLive(w: World, es: seq<Event>)
    requires PlainKeys(w)
    ensures w.log <= After(w, es).log && |After(w, es).log| == |w.log| + Successes(w, es)
    ensures Replay(LivePairs(w), NewEvents(w, es), Reached(w, es)) == LivePairs(After(w, es))
  {
    LogGrows(w, es);
    if es != [] {
      var front, last := es[..|es| - 1], es[|es| - 1];
      var before := After(w, front);
      ReplayIsLive(w, front);
      RunKeepsPlainKeys(w, front);
      NewEventsGrow(w, es);
      if Succeeds(before, last.request, last.outside) {
        var at := if ForFlags(last.request) then before.reach[last.request.cluster] else "";
        ReplayStep(before, last.request, last.outside, at);
        ReplayOneMore(LivePairs(w), NewEvents(w, front), Reached(w, front), EventOf(last.request, last.outside), at);
        assert Reached(w, es) == Reached(w, front) + [at];
      } else {
        assert NewEvents(w, es) == NewEvents(w, front) && Reached(w, es) == Reached(w, front);
      }
    }
  }

  // ---- Reading the log alone, with a fixed address book -----------------------------------

  /** In every state of the run, every registered id reaches the server that the address book gives. */
  ghost predicate Steady(w: World, es: seq<Event>, home: map<string, string>) {
    forall i, c | 0 <= i <= |es| && c in After(w, es[..i]).reach :: c in home && home[c] == After(w, es[..i]).reach[c]
  }

  function PlaceOf(e: AuditEvent, home: map<string, string>): string {
    if e.resource == "featureflag" && e.cluster in home then home[e.cluster] else ""
  }

  /** The log with each event's id looked up. */
  function Places(log: seq<AuditEvent>, home: map<string, string>): (r: seq<string>)
    ensures |r| == |log| && forall i | 0 <= i < |r| :: r[i] == PlaceOf(log[i], home)
  {
    seq(|log|, i requires 0 <= i < |log| => PlaceOf(log[i], home))
  }

  lemma SteadyFront(w: World, es: seq<Event>, home: map<string, string>)
    requires es != [] && Steady(w, es, home)
    ensures Steady(w, es[..|es| - 1], home)
    ensures forall c | c in After(w, es[..|es| - 1]).reach :: c in home && home[c] == After(w, es[..|es| - 1]).reach[c]
  {
    var front := es[..|es| - 1];
    forall i | 0 <= i <= |front| ensures front[..i] == es[..i] { }
  }

  lemma PlaceIsReached(w: World, q: Request, o: Outside, home: map<string, string>)
    requires Succeeds(w, q, o) && forall c | c in w.reach :: c in home && home[c] == w.reach[c]
    ensures PlaceOf(EventOf(q, o), home) == if ForFlags(q) then w.reach[q.cluster] else ""
  {
  }

  lemma {:induction false} PlacesAreReached(w: World, es: seq<Event>, home: map<string, string>)
    requires Steady(w, es, home)
    ensures Places(NewEvents(w, es), home) == Reached(w, es)
  {
    if es != [] {
      var front, last := es[..|es| - 1], es[|es| - 1];
      SteadyFront(w, es, home);
      PlacesAreReached(w, front, home);
      NewEventsGrow(w, es);
      if Succeeds(After(w, front), last.request, last.outside) {
        PlaceIsReached(After(w, front), last.request, last.outside, home);
        assert Places(NewEvents(w, es), home)
          == Places(NewEvents(w, front), home) + [PlaceOf(EventOf(last.request, last.outside), home)];
      } else {
        assert NewEvents(w, es) == NewEvents(w, front) && Reached(w, es) == Reached(w, front);
      }
    }
  }

  /** In every run in which no id changes its server, the log and the address book give exactly the live flags. */
  lemma SteadyReplayIsLive(w: World, es: seq<Event>, home: map<string, string>)
    requires PlainKeys(w) && Steady(w, es, home)
    ensures Replay(LivePairs(w), NewEvents(w, es), Places(NewEvents(w, es), home)) == LivePairs(After(w, es))
  {
    ReplayIsLive(w, es);
    PlacesAreReached(w, es, home);
  }

  /** So for each flag of each server, the replay says that it exists exactly when it does. */
  lemma ReplayDecides(w: World, es: seq<Event>, home: map<string, string>, s: string, k: ObjectKey)
    requires PlainKeys(w) && PlainKey(k) && Steady(w, es, home)
    ensures (s, ResourceId(k)) in Replay(LivePairs(w), NewEvents(w, es), Places(NewEvents(w, es), home))
      <==> FlagOn(After(w, es), s, k).Some?
  {
    SteadyReplayIsLive(w, es, home);
    RunKeepsPlainKeys(w, es);
    LivePairsHold(After(w, es), s, k);
  }

  // ---- Reading the log by id --------------------------------------------------------------

  /** The flags as the registered ids show them. */
  function SeenPairs(w: World): Pairs {
    set c, k | c in w.reach && k in FlagsOf(w, c) :: (c, ResourceId(k))
  }

  function Ids(log: seq<AuditEvent>): (r: seq<string>)
    ensures |r| == |log| && forall i | 0 <= i < |r| :: r[i] == log[i].cluster
  {
    seq(|log|, i requires 0 <= i < |log| => log[i].cluster)
  }

  predicate FlagRun(es: seq<Event>) {
    forall i | 0 <= i < |es| :: ForFlags(es[i].request)
  }

  /** Replaying the log by the ids it names gives what the ids show. */
  ghost predicate ExactById(w: World, es: seq<Event>) {
    Replay(SeenPairs(w), NewEvents(w, es), Ids(NewEvents(w, es))) == SeenPairs(After(w, es))
  }

  /** No two registered ids reach the same server. */
  predicate Apart(reach: map<string, string>) {
    forall c, d | c in reach && d in reach && c != d :: reach[c] != reach[d]
  }

  lemma SeenPairsHold(w: World, c: string, k: ObjectKey)
    requires PlainKeys(w) && PlainKey(k)
    ensures (c, ResourceId(k)) in SeenPairs(w) <==> Live(w, c, k)
  {
    if (c, ResourceId(k)) in SeenPairs(w) {
      var k' :| c in w.reach && k' in FlagsOf(w, c) && ResourceId(k') == ResourceId(k);
      ResourceIdIsInjective(k, k');
    }
  }

  /** Where ids are apart, a success moves at most the flag of the id it names. */
  lemma RequestMovesOneSeen(w: World, q: Request, o: Outside, c: string, k: ObjectKey)
    requires ForFlags(q) && Succeeds(w, q, o) && Apart(w.reach) && c in w.reach
    ensures q.cluster in w.reach && Serve(w, q, o).reach == w.reach
    ensures Live(Serve(w, q, o), c, k) <==>
      (Live(w, c, k) && !(q.Delete? && q.cluster == c && q.key == k)) || (q.Create? && q.cluster == c && q.key == k)
  {
    RequestMovesOneFlag(w, q, o, w.reach[c], k);
    assert Hits(w, q, w.reach[c], k) <==> q.cluster == c && q.key == k;
    assert Live(w, c, k) <==> FlagOn(w, w.reach[c], k).Some?;
    assert Live(Serve(w, q, o), c, k) <==> FlagOn(Serve(w, q, o), w.reach[c], k).Some?;
  }

  lemma AppliedAreSeen(w: World, q: Request, o: Outside, p: (string, string))
    requires PlainKeys(w) && ForFlags(q) && Succeeds(w, q, o) && Apart(w.reach)
    requires p in Apply(SeenPairs(w), q.cluster, EventOf(q, o))
    ensures p in SeenPairs(Serve(w, q, o))
  {
    if p in SeenPairs(w) {
      var c, k :| c in w.reach && k in FlagsOf(w, c) && p == (c, ResourceId(k));
      RequestMovesOneSeen(w, q, o, c, k);
    } else {
      RequestMovesOneSeen(w, q, o, q.cluster, q.key);
    }
  }

  lemma SeenAreApplied(w: World, q: Request, o: Outside, p: (string, string))
    requires PlainKeys(w) && ForFlags(q) && Succeeds(w, q, o) && Apart(w.reach)
    requires p in SeenPairs(Serve(w, q, o))
    ensures p in Apply(SeenPairs(w), q.cluster, EventOf(q, o))
  {
    var w' := Serve(w, q, o);
    RequestKeepsPlainKeys(w, q, o);
    var c, k :| c in w'.reach && k in FlagsOf(w', c) && p == (c, ResourceId(k));
    RequestMovesOneSeen(w, q, o, c, k);
    if q.Delete? && Live(w, c, k) && p == (q.cluster, ResourceId(q.key)) {
      ResourceIdIsInjective(k, q.key);
    }
  }

  lemma {:induction false} ApartIsExact(w: World, es: seq<Event>)
    requires PlainKeys(w) && Apart(w.reach) && FlagRun(es)
    ensures ExactById(w, es) && After(w, es).reach == w.reach
  {
    if es != [] {
      var front, last := es[..|es| - 1], es[|es| - 1];
      var before := After(w, front);
      var q, o := last.request, last.outside;
      ApartIsExact(w, front);
      RunKeepsPlainKeys(w, front);
      NewEventsGrow(w, es);
      if Succeeds(before, q, o) {
        forall p
          ensures p in Apply(SeenPairs(before), q.cluster, EventOf(q, o)) <==> p in SeenPairs(Serve(before, q, o))
        {
          if p in Apply(SeenPairs(before), q.cluster, EventOf(q, o)) { AppliedAreSeen(before, q, o, p); }
          if p in SeenPairs(Serve(before, q, o)) { SeenAreApplied(before, q, o, p); }
        }
        ReplayOneMore(SeenPairs(w), NewEvents(w, front), Ids(NewEvents(w, front)), EventOf(q, o), q.cluster);
        assert Ids(NewEvents(w, es)) == Ids(NewEvents(w, front)) + [q.cluster];
      } else {
        assert NewEvents(w, es) == NewEvents(w, front);
      }
    }
  }

  // ---- Two ids for one server -------------------------------------------------------------

  const FINE := Outside(true, false, false, None, "", "", 0)

  /** A request through one id, and none through the other. */
  lemma OneRequest(w: World, q: Request)
    requires Succeeds(w, q, FINE)
    ensures NewEvents(w, [Event(q, FINE)]) == [EventOf(q, FINE)]
    ensures After(w, [Event(q, FINE)]) == Serve(w, q, FINE)
  {
    var es := [Event(q, FINE)];
    assert es[..0] == [] && After(w, es[..0]) == w;
    NewEventsGrow(w, es);
    assert NewEvents(w, []) == [];
  }

  /** A key that an API call can name. */
  predicate Nameable(k: ObjectKey) {
    PlainKey(k) && k.ns != "" && k.name != ""
  }

  const ANY_SPEC := FlagSpec("", Boolean, "true", "", None, false, LIFECYCLE_ACTIVE)

  /** The request that turns a flag's existence around through an id. */
  function Flip(w: World, c: string, k: ObjectKey): Request {
    if Live(w, c, k) then Delete(c, k) else Create(c, k, ANY_SPEC)
  }

  lemma FlipThroughAlias(w: World, c: string, d: string, k: ObjectKey)
    requires PlainKeys(w) && c in w.reach && d in w.reach && c != d && w.reach[c] == w.reach[d] && d != ""
    requires Nameable(k)
    ensures Succeeds(w, Flip(w, d, k), FINE)
    ensures Live(Serve(w, Flip(w, d, k), FINE), c, k) <==> !Live(w, c, k)
    ensures !ExactById(w, [Event(Flip(w, d, k), FINE)])
  {
    var q := Flip(w, d, k);
    var w' := Serve(w, q, FINE);
    OneRequest(w, q);
    RequestKeepsPlainKeys(w, q, FINE);
    SeenPairsHold(w, c, k);
    SeenPairsHold(w', c, k);
    var es := [Event(q, FINE)];
    ReplayOneMore(SeenPairs(w), [], [], EventOf(q, FINE), d);
    assert [] + [EventOf(q, FINE)] == NewEvents(w, es) && [] + [d] == Ids(NewEvents(w, es));
    assert (c, ResourceId(k)) in SeenPairs(w) <==>
      (c, ResourceId(k)) in Replay(SeenPairs(w), NewEvents(w, es), Ids(NewEvents(w, es)));
  }

  /** Reading the log by id is exact for all runs of flag requests if and only if no two registered ids reach the same
      server. */
  lemma ExactByIdIffApart(w: World)
    requires PlainKeys(w) && "" !in w.reach
    ensures (forall es | FlagRun(es) :: ExactById(w, es)) <==> Apart(w.reach)
  {
    if Apart(w.reach) {
      forall es | FlagRun(es) ensures ExactById(w, es) { ApartIsExact(w, es); }
    } else {
      var c, d :| c in w.reach && d in w.reach && c != d && w.reach[c] == w.reach[d];
      var k := ObjectKey("n", "f");
      FlipThroughAlias(w, c, d, k);
      assert FlagRun([Event(Flip(w, d, k), FINE)]);
    }
  }

  // ---- Asking the log ---------------------------------------------------------------------

  /** The query for the newest event of one flag. */
  function NewestOfFlag(c: string, k: ObjectKey): AuditFilter {
    AuditFilter("featureflag", ResourceId(k), "", c, "", None, 1)
  }

  predicate Names(e: AuditEvent, c: string, k: ObjectKey) {
    e.resource == "featureflag" && e.cluster == c && e.resourceId == ResourceId(k)
  }

  lemma ListingOfNewest(log: seq<AuditEvent>, e: AuditEvent, c: string, k: ObjectKey)
    requires c != ""
    ensures Listing([], NewestOfFlag(c, k)) == []
    ensures Listing(log + [e], NewestOfFlag(c, k)) == if Names(e, c, k) then [e] else Listing(log, NewestOfFlag(c, k))
  {
    var f := NewestOfFlag(c, k);
    assert |f.resourceId| == |k.ns| + 1 + |k.name|;
    assert (log + [e])[..|log|] == log;
    var all := Reversed(Matching(log + [e], f));
    if Names(e, c, k) {
      assert all[0] == e;
      assert all[..1] == [e];
    }
  }

  /** What the newest event of a flag tells about it on a server; without events it is still what it was. */
  predicate Tells(newest: seq<AuditEvent>, w: World, w': World, server: string, k: ObjectKey) {
    if newest == [] then FlagOn(w', server, k) == FlagOn(w, server, k)
    else FlagOn(w', server, k).Some? <==> newest[0].action != "delete"
  }

  predicate ReachedOnlyBy(reach: map<string, string>, server: string, c: string) {
    forall d | d in reach :: reach[d] == server <==> d == c
  }

  /** In every state of the run, the id is the only one that reaches the server, and reaches no other. */
  ghost predicate Alone(w: World, es: seq<Event>, c: string, server: string) {
    forall i | 0 <= i <= |es| :: ReachedOnlyBy(After(w, es[..i]).reach, server, c)
  }

  lemma AloneFront(w: World, es: seq<Event>, c: string, server: string)
    requires es != [] && Alone(w, es, c, server)
    ensures Alone(w, es[..|es| - 1], c, server)
    ensures ReachedOnlyBy(After(w, es[..|es| - 1]).reach, server, c)
  {
    var front := es[..|es| - 1];
    forall i | 0 <= i <= |front| ensures front[..i] == es[..i] { }
  }

  lemma RequestTouchesNamedFlag(w: World, q: Request, o: Outside, c: string, server: string, k: ObjectKey)
    requires PlainKeys(w) && PlainKey(k) && Succeeds(w, q, o)
    requires ReachedOnlyBy(w.reach, server, c)
    ensures if Names(EventOf(q, o), c, k)
      then FlagOn(Serve(w, q, o), server, k).Some? <==> EventOf(q, o).action != "delete"
      else FlagOn(Serve(w, q, o), server, k) == FlagOn(w, server, k)
  {
    if Names(EventOf(q, o), c, k) {
      assert q.cluster in w.reach && w.reach[q.cluster] == server;
      assert PlainKey(q.key) by {
        if !q.Create? { assert q.key in FlagsOn(w, server); }
      }
      ResourceIdIsInjective(q.key, k);
    }
  }

  /** After any run from an empty log in which only this id reaches the server, the newest listed event of a flag
      decides whether the flag exists: it does unless that event is a deletion. A flag that the log does not name is as
      it was before the run. */
  lemma {:induction false} NewestEventTells(w: World, es: seq<Event>, c: string, server: string, k: ObjectKey)
    requires PlainKeys(w) && w.log == [] && c != "" && PlainKey(k) && Alone(w, es, c, server)
    ensures Tells(Listing(After(w, es).log, NewestOfFlag(c, k)), w, After(w, es), server, k)
  {
    if es == [] {
      ListingOfNewest([], AuditEvent("", 0, "", "", "", "", "", ""), c, k);
    } else {
      var front, last := es[..|es| - 1], es[|es| - 1];
      var before := After(w, front);
      AloneFront(w, es, c, server);
      NewestEventTells(w, front, c, server, k);
      RunKeepsPlainKeys(w, front);
      if Succeeds(before, last.request, last.outside) {
        RequestTouchesNamedFlag(before, last.request, last.outside, c, server, k);
        ListingOfNewest(before.log, EventOf(last.request, last.outside), c, k);
      }
    }
  }

  /** No other registered id reaches the server of this one. */
  predicate Sole(reach: map<string, string>, c: string) {
    c in reach && forall d | d in reach && d != c :: reach[d] != reach[c]
  }

  lemma {:induction false} FlagRunKeepsReach(w: World, es: seq<Event>)
    requires FlagRun(es)
    ensures After(w, es).reach == w.reach
  {
    if es != [] { FlagRunKeepsReach(w, es[..|es| - 1]); }
  }

  lemma SoleTells(w: World, es: seq<Event>, c: string, k: ObjectKey)
    requires PlainKeys(w) && w.log == [] && c != "" && Nameable(k) && Sole(w.reach, c) && FlagRun(es)
    ensures Tells(Listing(After(w, es).log, NewestOfFlag(c, k)), w, After(w, es), w.reach[c], k)
  {
    forall i | 0 <= i <= |es| ensures After(w, es[..i]).reach == w.reach { FlagRunKeepsReach(w, es[..i]); }
    NewestEventTells(w, es, c, w.reach[c], k);
  }

  lemma AliasNeverTells(w: World, c: string, d: string, k: ObjectKey)
    requires PlainKeys(w) && w.log == [] && c != "" && d != "" && Nameable(k)
    requires c in w.reach && d in w.reach && c != d && w.reach[c] == w.reach[d]
    ensures var w' := After(w, [Event(Flip(w, d, k), FINE)]);
      !Tells(Listing(w'.log, NewestOfFlag(c, k)), w, w', w.reach[c], k)
  {
    var q := Flip(w, d, k);
    FlipThroughAlias(w, c, d, k);
    OneRequest(w, q);
    ListingOfNewest([], EventOf(q, FINE), c, k);
    assert [] + [EventOf(q, FINE)] == NewEvents(w, [Event(q, FINE)]);
  }

  /** The newest event of a flag tells about it in all runs of flag requests if and only if no other id reaches the same
      server. */
  lemma NewestTellsIffSole(w: World, c: string, k: ObjectKey)
    requires PlainKeys(w) && w.log == [] && "" !in w.reach && c in w.reach && Nameable(k)
    ensures (forall es | FlagRun(es) ::
              Tells(Listing(After(w, es).log, NewestOfFlag(c, k)), w, After(w, es), w.reach[c], k))
      <==> Sole(w.reach, c)
  {
    if Sole(w.reach, c) {
      forall es | FlagRun(es)
        ensures Tells(Listing(After(w, es).log, NewestOfFlag(c, k)), w, After(w, es), w.reach[c], k)
      {
        SoleTells(w, es, c, k);
      }
    } else {
      var d :| d in w.reach && d != c && w.reach[d] == w.reach[c];
      AliasNeverTells(w, c, d, k);
      assert FlagRun([Event(Flip(w, d, k), FINE)]);
    }
  }

  /** What the outside contributes to the run below. */
  function AliasOutside(server: string): Outside {
    FINE.(kubeconfigReaches := Some(server))
  }

  const ALIAS := Register("prod", "Production", "", "kubeconfig", "")

  lemma AliasedRun(w: World, k: ObjectKey, server: string)
    requires w.reach == map["local" := server] && Nameable(k) && FlagOn(w, server, k) == None
    ensures var o := AliasOutside(server);
      var w1 := Serve(w, ALIAS, o);
      var w2 := Serve(w1, Create("local", k, ANY_SPEC), o);
      var w3 := Serve(w2, Delete("prod", k), o);
      && Succeeds(w, ALIAS, o) && Succeeds(w1, Create("local", k, ANY_SPEC), o) && Succeeds(w2, Delete("prod", k), o)
      && Live(w2, "prod", k) && !Live(w3, "local", k)
      && w3.log == w.log + [EventOf(ALIAS, o)] + [EventOf(Create("local", k, ANY_SPEC), o)]
                   + [EventOf(Delete("prod", k), o)]
  {
    var o := AliasOutside(server);
    var w1 := Serve(w, ALIAS, o);
    assert w1.reach == map["local" := server, "prod" := server] && w1.servers == w.servers;
    var w2 := Serve(w1, Create("local", k, ANY_SPEC), o);
    assert w2.reach == w1.reach && k in FlagsOn(w2, server);
  }

  lemma NewestOfThree(e1: AuditEvent, e2: AuditEvent, e3: AuditEvent, c: string, k: ObjectKey)
    requires c != "" && !Names(e1, c, k) && Names(e2, c, k) && !Names(e3, c, k)
    ensures Listing([e1, e2, e3], NewestOfFlag(c, k)) == [e2]
  {
    ListingOfNewest([e1], e2, c, k);
    ListingOfNewest([e1, e2], e3, c, k);
    assert [e1] + [e2] == [e1, e2] && [e1, e2] + [e3] == [e1, e2, e3];
  }

  /** The input that misleads: "prod" is registered for the server that "local" reaches, a flag is created through
      "local" and deleted through "prod". All three succeed and the flag is gone, but the newest event that the log
      holds of it under "local" is the creation. */
  lemma AliasedIdsMislead(w: World, k: ObjectKey, server: string)
    requires w.log == [] && w.reach == map["local" := server] && Nameable(k) && FlagOn(w, server, k) == None
    ensures var o := AliasOutside(server);
      var create, delete := Create("local", k, ANY_SPEC), Delete("prod", k);
      var w1 := Serve(w, ALIAS, o);
      var w2 := Serve(w1, create, o);
      var w3 := Serve(w2, delete, o);
      && Succeeds(w, ALIAS, o) && Succeeds(w1, create, o) && Succeeds(w2, delete, o)
      && !Live(w3, "local", k)
      && Listing(w3.log, NewestOfFlag("local", k)) == [EventOf(create, o)] && EventOf(create, o).action == "create"
  {
    AliasedRun(w, k, server);
    var o := AliasOutside(server);
    var e1, e2, e3 := EventOf(ALIAS, o), EventOf(Create("local", k, ANY_SPEC), o), EventOf(Delete("prod", k), o);
    assert [] + [e1] + [e2] + [e3] == [e1, e2, e3];
    NewestOfThree(e1, e2, e3, "local", k);
  }

  // ---- Toggling ---------------------------------------------------------------------------

  /** Two successful toggles in a row restore the flags exactly when the value was "true" or "false"; any other value
      of a boolean flag is lost, and the flag ends up "false". */
  lemma TogglesCancel(w: World, c: string, k: ObjectKey, o1: Outside, o2: Outside)
    requires Succeeds(w, Toggle(c, k), o1)
    requires Succeeds(Serve(w, Toggle(c, k), o1), Toggle(c, k), o2)
    ensures Live(w, c, k)
    ensures Serve(Serve(w, Toggle(c, k), o1), Toggle(c, k), o2).servers == w.servers <==>
      FlagAt(w, c, k).value.spec.defaultValue in {"true", "false"}
    ensures FlagAt(w, c, k).value.spec.defaultValue !in {"true", "false"} ==>
      FlagAt(Serve(Serve(w, Toggle(c, k), o1), Toggle(c, k), o2), c, k).value.spec.defaultValue == "false"
  {
    var w1 := Serve(w, Toggle(c, k), o1);
    var w2 := Serve(w1, Toggle(c, k), o2);
    var value := FlagAt(w, c, k).value.spec.defaultValue;
    assert FlagAt(w2, c, k).value.spec.defaultValue == if value == "true" then "true" else "false";
    if value in {"true", "false"} {
      assert w2.servers[w.reach[c]] == w.servers[w.reach[c]];
    }
  }
}
