/** Sidecar and SDK together, as interleaved atomic steps: one watcher that writes the map and then broadcasts,
    any number of stream subscribers, and one SDK client whose cache is filled by its stream and by HTTP fetches. */
module SidecarProtocol {
  import opened Results
  import opened SidecarStore
  import opened EnvProvider
  import opened FlagPaths
  import opened Sequences
  import opened Text

  datatype Sub = Sub(buffer: seq<ResolvedFlag>, consumed: seq<ResolvedFlag>, offers: seq<Offer>, closed: bool)

  /** `pending` is a flag already in the map whose broadcast has not happened yet. */
  datatype Sidecar = Sidecar(
    flags: map<string, ResolvedFlag>,
    pending: Option<ResolvedFlag>,
    subs: map<nat, Sub>,
    registered: set<nat>,
    panicked: bool)

  datatype Entry = Entry(key: string, flag: Flag)

  /** A fetch is for one name or for everything; once answered it holds what it has yet to store. */
  datatype Fetch = AskOne(name: string) | AskAll | Answered(entries: seq<Entry>)

  /** `wire` is what the server has written to the client's open stream and the client has not read. */
  datatype Client = Client(
    cache: map<string, Flag>,
    stream: Option<nat>,
    wire: seq<Flag>,
    fetches: map<nat, Fetch>)

  /** `held` collects every flag the map has ever held. */
  datatype System = System(sidecar: Sidecar, client: Client, held: set<ResolvedFlag>)

  datatype Event =
    | Write(flag: ResolvedFlag)
    | Broadcast
    | Delete(name: string)
    | Subscribe(id: nat, byClient: bool)
    | Leave(id: nat)
    | Close(id: nat)
    | Receive(id: nat)
    | Cut(delivered: nat)
    | Read
    | Ask(fetch: nat, request: Fetch)
    | Answer(fetch: nat, listing: seq<string>, elsewhere: Option<Flag>)
    | Store(fetch: nat)

  const INIT := System(Sidecar(map[], None, map[], {}, false), Client(map[], None, [], map[]), {})

  /** The SDK's flag has no description. */
  function View(f: ResolvedFlag): Flag {
    Flag(f.name, match f.flagType
                 case Boolean => "boolean"
                 case String => "string"
                 case Integer => "integer"
                 case Json => "json"
                 case OtherType(t) => t, f.value, f.disabled)
  }

  // ---- Fetching by name -------------------------------------------------------------------

  /** The entries that the answer to a single fetch makes the client store: always under the name that was asked for.
      `elsewhere` is what the client decodes from the answer when the fetch leaves the route of single flags. */
  function SingleAnswer(flags: map<string, ResolvedFlag>, name: string, elsewhere: Option<Flag>): seq<Entry> {
    match TargetOf(name)
    case NoAnswer => []
    case SingleFlag(n) => if n in flags then [Entry(name, View(flags[n]))] else []
    case OtherPath => if elsewhere.Some? then [Entry(name, elsewhere.value)] else []
  }

  function AllAnswer(flags: map<string, ResolvedFlag>, listing: seq<string>): (r: seq<Entry>)
    requires forall i | 0 <= i < |listing| :: listing[i] in flags
    ensures |r| == |listing|
  {
    seq(|listing|, i requires 0 <= i < |listing| => Entry(flags[listing[i]].name, View(flags[listing[i]])))
  }

  // ---- The steps --------------------------------------------------------------------------

  predicate IsListing(flags: map<string, ResolvedFlag>, listing: seq<string>) {
    && (forall i | 0 <= i < |listing| :: listing[i] in flags)
    && (forall n | n in flags :: n in listing)
    && (forall i, j | 0 <= i < j < |listing| :: listing[i] != listing[j])
  }

  /** When a step can happen. The watcher finishes a broadcast before its next write; each channel is
      left and closed at most once; the client reads a stream to its end before opening the next. */
  predicate Possible(s: System, e: Event) {
    match e
    case Write(_) => s.sidecar.pending.None?
    case Broadcast => s.sidecar.pending.Some?
    case Delete(_) => s.sidecar.pending.None?
    case Subscribe(id, byClient) =>
      id !in s.sidecar.subs && (byClient ==> s.client.stream.None? && s.client.wire == [])
    case Leave(id) => id in s.sidecar.registered
    case Close(id) => id in s.sidecar.subs && id !in s.sidecar.registered && !s.sidecar.subs[id].closed
    case Receive(id) => id in s.sidecar.subs && s.sidecar.subs[id].buffer != []
    case Cut(n) => s.client.stream.Some? && n <= |s.client.wire|
    case Read => s.client.wire != []
    case Ask(id, request) => id !in s.client.fetches && !request.Answered?
    case Answer(id, listing, _) =>
      && id in s.client.fetches && !s.client.fetches[id].Answered?
      && (s.client.fetches[id].AskAll? ==> IsListing(s.sidecar.flags, listing))
    case Store(id) => id in s.client.fetches && s.client.fetches[id].Answered?
  }

  function Offered1(sub: Sub, f: ResolvedFlag): Sub {
    sub.(buffer := Enqueue(sub.buffer, f), offers := sub.offers + [OfferTo(sub.buffer, f)])
  }

  function Step(s: System, e: Event): System
    requires Possible(s, e)
  {
    var sc, cl := s.sidecar, s.client;
    match e
    case Write(f) =>
      s.(sidecar := sc.(flags := sc.flags[f.name := f], pending := Some(f)), held := s.held + {f})
    case Broadcast =>
      s.(sidecar := sc.(
        pending := None,
        panicked := sc.panicked || (exists id | id in sc.subs :: id in sc.registered && sc.subs[id].closed),
        subs := map id | id in sc.subs ::
          if id in sc.registered then Offered1(sc.subs[id], sc.pending.value) else sc.subs[id]))
    case Delete(n) => s.(sidecar := sc.(flags := sc.flags - {n}))
    case Subscribe(id, byClient) =>
      s.(sidecar := sc.(subs := sc.subs[id := Sub([], [], [], false)], registered := sc.registered + {id}),
         client := if byClient then cl.(stream := Some(id)) else cl)
    case Leave(id) => s.(sidecar := sc.(registered := sc.registered - {id}))
    case Close(id) => s.(sidecar := sc.(subs := sc.subs[id := sc.subs[id].(closed := true)]))
    case Receive(id) =>
      var sub := sc.subs[id];
      var f := sub.buffer[0];
      s.(sidecar := sc.(subs := sc.subs[id := sub.(buffer := sub.buffer[1..], consumed := sub.consumed + [f])]),
         client := if cl.stream == Some(id) then cl.(wire := cl.wire + [View(f)]) else cl)
    case Cut(n) => s.(client := cl.(stream := None, wire := cl.wire[..n]))
    case Read => s.(client := cl.(wire := cl.wire[1..], cache := cl.cache[cl.wire[0].name := cl.wire[0]]))
    case Ask(id, request) => s.(client := cl.(fetches := cl.fetches[id := request]))
    case Answer(id, listing, elsewhere) =>
      var entries := match cl.fetches[id]
        case AskOne(n) => SingleAnswer(sc.flags, n, elsewhere)
        case AskAll => AllAnswer(sc.flags, listing)
        case Answered(es) => es;
      s.(client := cl.(fetches := cl.fetches[id := Answered(entries)]))
    case Store(id) =>
      var entries := cl.fetches[id].entries;
      if entries == [] then s.(client := cl.(fetches := cl.fetches - {id}))
      else s.(client := cl.(cache := cl.cache[entries[0].key := entries[0].flag],
                            fetches := cl.fetches[id := Answered(entries[1..])]))
  }

  ghost predicate ValidRun(s: System, events: seq<Event>)
    decreases |events|
  {
    events == [] || (Possible(s, events[0]) && ValidRun(Step(s, events[0]), events[1..]))
  }

  ghost function Run(s: System, events: seq<Event>): System
    requires ValidRun(s, events)
    decreases |events|
  {
    if events == [] then s else Run(Step(s, events[0]), events[1..])
  }

  // ---- Lossy broadcast --------------------------------------------------------------------

  /** What a subscriber has consumed and still buffers is exactly what it was offered and did not drop, and it drops
      only when full. */
  ghost predicate SubLossy(sub: Sub) {
    && |sub.buffer| <= CAPACITY
    && sub.consumed + sub.buffer == Kept(sub.offers)
    && DropsOnlyWhenFull(sub.offers)
  }

  /** Every subscriber is as above; and a registered channel is open, so no broadcast has hit a closed one. */
  ghost predicate Lossy(s: Sidecar) {
    && !s.panicked
    && s.registered <= s.subs.Keys
    && (forall id | id in s.subs :: SubLossy(s.subs[id]))
    && (forall id | id in s.registered :: !s.subs[id].closed)
  }

  lemma OfferKeepsLossy(sub: Sub, f: ResolvedFlag)
    requires SubLossy(sub)
    ensures SubLossy(Offered1(sub, f))
  {
    var sub' := Offered1(sub, f);
    assert sub'.offers[..|sub'.offers| - 1] == sub.offers;
  }

  lemma ReceiveKeepsLossy(sub: Sub)
    requires SubLossy(sub) && sub.buffer != []
    ensures SubLossy(sub.(buffer := sub.buffer[1..], consumed := sub.consumed + [sub.buffer[0]]))
  {
    assert sub.consumed + [sub.buffer[0]] + sub.buffer[1..] == sub.consumed + sub.buffer;
  }

  lemma BroadcastKeepsLossy(s: System)
    requires Possible(s, Broadcast) && Lossy(s.sidecar)
    ensures Lossy(Step(s, Broadcast).sidecar)
  {
    forall id | id in s.sidecar.subs && id in s.sidecar.registered
      ensures SubLossy(Offered1(s.sidecar.subs[id], s.sidecar.pending.value))
    {
      OfferKeepsLossy(s.sidecar.subs[id], s.sidecar.pending.value);
    }
  }

  lemma StepKeepsLossy(s: System, e: Event)
    requires Possible(s, e) && Lossy(s.sidecar)
    ensures Lossy(Step(s, e).sidecar)
  {
    if e.Broadcast? {
      BroadcastKeepsLossy(s);
    } else if e.Receive? {
      ReceiveKeepsLossy(s.sidecar.subs[e.id]);
    }
  }

  lemma {:induction false} LossyBroadcast(s: System, events: seq<Event>)
    requires Lossy(s.sidecar) && ValidRun(s, events)
    ensures Lossy(Run(s, events).sidecar)
    decreases |events|
  {
    if events != [] {
      StepKeepsLossy(s, events[0]);
      LossyBroadcast(Step(s, events[0]), events[1..]);
    }
  }

  /** The flags broadcast in a run while the subscriber was registered, read off the run alone. */
  ghost function BroadcastsTo(s: System, events: seq<Event>, id: nat): seq<ResolvedFlag>
    requires ValidRun(s, events)
    decreases |events|
  {
    if events == [] then []
    else BroadcastIn(s, events[0], id) + BroadcastsTo(Step(s, events[0]), events[1..], id)
  }

  function BroadcastIn(s: System, e: Event, id: nat): seq<ResolvedFlag>
    requires Possible(s, e)
  {
    if e.Broadcast? && id in s.sidecar.registered then [s.sidecar.pending.value] else []
  }

  ghost function OffersTo(s: Sidecar, id: nat): seq<ResolvedFlag> {
    if id in s.subs then Offered(s.subs[id].offers) else []
  }

  lemma BroadcastOffers(s: System, id: nat)
    requires Possible(s, Broadcast) && Lossy(s.sidecar)
    ensures OffersTo(Step(s, Broadcast).sidecar, id) == OffersTo(s.sidecar, id) + BroadcastIn(s, Broadcast, id)
  {
    if id in s.sidecar.registered {
      var sub := s.sidecar.subs[id];
      assert Offered(Offered1(sub, s.sidecar.pending.value).offers) == Offered(sub.offers) + [s.sidecar.pending.value];
    }
  }

  lemma StepOffers(s: System, e: Event, id: nat)
    requires Possible(s, e) && Lossy(s.sidecar)
    ensures OffersTo(Step(s, e).sidecar, id) == OffersTo(s.sidecar, id) + BroadcastIn(s, e, id)
  {
    if e.Broadcast? {
      BroadcastOffers(s, id);
    } else {
      assert id in s.sidecar.subs ==> Step(s, e).sidecar.subs[id].offers == s.sidecar.subs[id].offers;
    }
  }

  lemma {:induction false} OffersAreBroadcasts(s: System, events: seq<Event>, id: nat)
    requires Lossy(s.sidecar) && ValidRun(s, events)
    ensures OffersTo(Run(s, events).sidecar, id) == OffersTo(s.sidecar, id) + BroadcastsTo(s, events, id)
    decreases |events|
  {
    if events != [] {
      StepKeepsLossy(s, events[0]);
      StepOffers(s, events[0], id);
      OffersAreBroadcasts(Step(s, events[0]), events[1..], id);
      Regroup(OffersTo(s.sidecar, id), BroadcastIn(s, events[0], id),
              BroadcastsTo(Step(s, events[0]), events[1..], id));
    }
  }

  /** For every subscriber of every run: what it consumed and still buffers is an in-order subsequence of the
      broadcasts since its subscription, at most 64 wait in its buffer, a broadcast is missing only if 64
      were waiting when it happened, and no broadcast ever hit a closed channel. */
  lemma SubscriberSeesSubsequence(events: seq<Event>, id: nat) returns (at: seq<nat>)
    requires ValidRun(INIT, events) && id in Run(INIT, events).sidecar.subs
    ensures var end := Run(INIT, events).sidecar;
      var sub := end.subs[id];
      var all := BroadcastsTo(INIT, events, id);
      && !end.panicked && |sub.buffer| <= 64
      && PicksOut(sub.consumed + sub.buffer, all, at)
      && |all| == |sub.offers|
      && forall i | 0 <= i < |all| && i !in at :: sub.offers[i].flag == all[i] && sub.offers[i].buffered == 64
  {
    LossyBroadcast(INIT, events);
    OffersAreBroadcasts(INIT, events, id);
    var sub := Run(INIT, events).sidecar.subs[id];
    assert SubLossy(sub) && OffersTo(Run(INIT, events).sidecar, id) == Offered(sub.offers);
    assert [] + BroadcastsTo(INIT, events, id) == BroadcastsTo(INIT, events, id);
    at := KeptAt(sub.offers);
    KeptIsSubsequence(sub.offers);
  }

  // ---- Cache soundness --------------------------------------------------------------------

  /** Every single fetch of the run is for a plain name or for one of some odd names. */
  ghost predicate FetchesWithin(events: seq<Event>, odd: set<string>) {
    forall i | 0 <= i < |events| && events[i].Ask? && events[i].request.AskOne? ::
      PlainName(events[i].request.name) || events[i].request.name in odd
  }

  predicate AskWithin(e: Event, odd: set<string>) {
    e.Ask? && e.request.AskOne? ==> PlainName(e.request.name) || e.request.name in odd
  }

  /** A flag stands under its own name and was in the sidecar's map at some time. */
  ghost predicate Genuine(s: System, key: string, flag: Flag) {
    flag.name == key && exists f | f in s.held :: View(f) == flag
  }

  /** Whatever the sidecar holds or is about to send was in its map, and the map is keyed by name. */
  ghost predicate SidecarSound(s: System) {
    && (forall n | n in s.sidecar.flags :: s.sidecar.flags[n].name == n && s.sidecar.flags[n] in s.held)
    && (s.sidecar.pending.Some? ==> s.sidecar.pending.value in s.held)
    && (forall id | id in s.sidecar.subs ::
          forall i | 0 <= i < |s.sidecar.subs[id].buffer| :: s.sidecar.subs[id].buffer[i] in s.held)
  }

  ghost predicate WireSound(s: System) {
    forall i | 0 <= i < |s.client.wire| :: Genuine(s, s.client.wire[i].name, s.client.wire[i])
  }

  ghost predicate AsksWithin(s: System, odd: set<string>) {
    forall id | id in s.client.fetches && s.client.fetches[id].AskOne? ::
      PlainName(s.client.fetches[id].name) || s.client.fetches[id].name in odd
  }

  ghost predicate EntriesSound(s: System, entries: seq<Entry>, odd: set<string>) {
    forall i | 0 <= i < |entries| :: entries[i].key in odd || Genuine(s, entries[i].key, entries[i].flag)
  }

  ghost predicate FetchesSound(s: System, odd: set<string>) {
    forall id | id in s.client.fetches && s.client.fetches[id].Answered? ::
      EntriesSound(s, s.client.fetches[id].entries, odd)
  }

  ghost predicate CachedSound(s: System, odd: set<string>) {
    forall n | n in s.client.cache :: n in odd || Genuine(s, n, s.client.cache[n])
  }

  /** Whatever the client holds, has fetched or is about to read is genuine, apart from the odd names. */
  ghost predicate ClientSound(s: System, odd: set<string>) {
    WireSound(s) && AsksWithin(s, odd) && FetchesSound(s, odd) && CachedSound(s, odd)
  }

  ghost predicate Sound(s: System, odd: set<string>) {
    SidecarSound(s) && ClientSound(s, odd)
  }

  lemma StepKeepsGenuine(s: System, e: Event)
    requires Possible(s, e)
    ensures forall key, flag | Genuine(s, key, flag) :: Genuine(Step(s, e), key, flag)
  {
    assert s.held <= Step(s, e).held;
    forall key, flag | Genuine(s, key, flag) ensures Genuine(Step(s, e), key, flag) {
      var f :| f in s.held && View(f) == flag;
      assert f in Step(s, e).held;
    }
  }

  lemma StepKeepsSidecarSound(s: System, e: Event)
    requires Possible(s, e) && SidecarSound(s)
    ensures SidecarSound(Step(s, e))
  {
  }

  lemma AnswersAreGenuine(s: System, e: Event, odd: set<string>)
    requires e.Answer? && Possible(s, e) && SidecarSound(s)
    requires s.client.fetches[e.fetch].AskOne? ==>
      PlainName(s.client.fetches[e.fetch].name) || s.client.fetches[e.fetch].name in odd
    ensures Step(s, e).client.fetches[e.fetch].Answered?
    ensures EntriesSound(s, Step(s, e).client.fetches[e.fetch].entries, odd)
  {
    var asked := s.client.fetches[e.fetch];
    if asked.AskOne? && TargetOf(asked.name) != NoAnswer {
      PlainIffOwnPath(asked.name);
    }
    var entries := Step(s, e).client.fetches[e.fetch].entries;
    forall i | 0 <= i < |entries| && entries[i].key !in odd ensures Genuine(s, entries[i].key, entries[i].flag) {
      var n := if asked.AskOne? then asked.name else e.listing[i];
      assert n in s.sidecar.flags && entries[i] == Entry(n, View(s.sidecar.flags[n]));
    }
  }

  lemma StepKeepsWireSound(s: System, e: Event, odd: set<string>)
    requires Possible(s, e) && Sound(s, odd)
    ensures WireSound(Step(s, e))
  {
    StepKeepsGenuine(s, e);
    if e.Receive? {
      var f := s.sidecar.subs[e.id].buffer[0];
      assert f in s.held && Genuine(s, View(f).name, View(f));
    }
  }

  lemma EntriesStaySound(s: System, e: Event, entries: seq<Entry>, odd: set<string>)
    requires Possible(s, e) && EntriesSound(s, entries, odd)
    ensures EntriesSound(Step(s, e), entries, odd)
  {
    StepKeepsGenuine(s, e);
  }

  lemma StepKeepsFetchesSound(s: System, e: Event, odd: set<string>)
    requires Possible(s, e) && Sound(s, odd) && AskWithin(e, odd)
    ensures AsksWithin(Step(s, e), odd) && FetchesSound(Step(s, e), odd)
  {
    var t := Step(s, e);
    if e.Answer? { AnswersAreGenuine(s, e, odd); }
    forall id | id in t.client.fetches && t.client.fetches[id].Answered?
      ensures EntriesSound(t, t.client.fetches[id].entries, odd)
    {
      if e.Store? && id == e.fetch {
        assert EntriesSound(s, s.client.fetches[id].entries, odd);
      }
      EntriesStaySound(s, e, t.client.fetches[id].entries, odd);
    }
  }

  lemma StepKeepsCachedSound(s: System, e: Event, odd: set<string>)
    requires Possible(s, e) && Sound(s, odd)
    ensures CachedSound(Step(s, e), odd)
  {
    StepKeepsGenuine(s, e);
    if e.Store? {
      assert EntriesSound(s, s.client.fetches[e.fetch].entries, odd);
    }
  }

  lemma {:induction false} RunKeepsSound(s: System, events: seq<Event>, odd: set<string>)
    requires Sound(s, odd) && ValidRun(s, events) && FetchesWithin(events, odd)
    ensures Sound(Run(s, events), odd)
    decreases |events|
  {
    if events != [] {
      assert AskWithin(events[0], odd);
      StepKeepsSidecarSound(s, events[0]);
      StepKeepsWireSound(s, events[0], odd);
      StepKeepsFetchesSound(s, events[0], odd);
      StepKeepsCachedSound(s, events[0], odd);
      RunKeepsSound(Step(s, events[0]), events[1..], odd);
    }
  }

  predicate Fetched(events: seq<Event>, name: string) {
    exists i :: 0 <= i < |events| && events[i].Ask? && events[i].request == AskOne(name)
  }

  /** Every interleaving: each cached entry is under its own flag name and was once in the sidecar's map, unless its
      key is a name that is not plain and was itself fetched. */
  lemma CacheSound(events: seq<Event>)
    requires ValidRun(INIT, events)
    ensures var end := Run(INIT, events);
      forall n | n in end.client.cache ::
        Genuine(end, n, end.client.cache[n]) || (!PlainName(n) && Fetched(events, n))
  {
    var odd := set i | 0 <= i < |events| && events[i].Ask? && events[i].request.AskOne?
                       && !PlainName(events[i].request.name) :: events[i].request.name;
    RunKeepsSound(INIT, events, odd);
    var end := Run(INIT, events);
    forall n | n in end.client.cache && n in odd ensures !PlainName(n) && Fetched(events, n) {
      var i :| 0 <= i < |events| && events[i].Ask? && events[i].request.AskOne? && events[i].request.name == n;
      assert events[i].request == AskOne(n);
    }
  }

  /** The exception is exact. Kubernetes gives flags plain names only; then whatever a single fetch makes the client
      store is the map's flag of that name if and only if the name is plain. */
  lemma StoredUnderOwnName(flags: map<string, ResolvedFlag>, name: string, elsewhere: Option<Flag>)
    requires forall n | n in flags :: flags[n].name == n && PlainName(n)
    requires SingleAnswer(flags, name, elsewhere) != []
    ensures var entry := SingleAnswer(flags, name, elsewhere)[0];
      && entry.key == name
      && (name in flags && entry.flag == View(flags[name]) <==> PlainName(name))
  {
    PlainIffOwnPath(name);
  }

  /** So fetching a flag by an escaped name files it under a name that is not its own. */
  lemma EscapedNameIsMisfiled(flags: map<string, ResolvedFlag>, a: string, b: string, elsewhere: Option<Flag>)
    requires (forall n | n in flags :: flags[n].name == n) && a + "-" + b in flags && LegalText(a) && LegalText(b)
    ensures SingleAnswer(flags, a + "%2D" + b, elsewhere) == [Entry(a + "%2D" + b, View(flags[a + "-" + b]))]
    ensures View(flags[a + "-" + b]).name != a + "%2D" + b
  {
    EscapedDash(a, b);
    assert |a + "%2D" + b| != |a + "-" + b|;
  }

  // ---- Leaving, cutting, fetching ---------------------------------------------------------

  lemma StepAfterLeaving(s: System, e: Event, id: nat)
    requires Possible(s, e) && id in s.sidecar.subs && id !in s.sidecar.registered
    ensures var t := Step(s, e).sidecar;
      id in t.subs && id !in t.registered && t.subs[id].offers == s.sidecar.subs[id].offers
  {
  }

  lemma {:induction false} UnregisteredHearsNothing(s: System, events: seq<Event>, id: nat)
    requires id in s.sidecar.subs && id !in s.sidecar.registered && ValidRun(s, events)
    ensures id in Run(s, events).sidecar.subs
    ensures Run(s, events).sidecar.subs[id].offers == s.sidecar.subs[id].offers
    decreases |events|
  {
    if events != [] {
      StepAfterLeaving(s, events[0], id);
      UnregisteredHearsNothing(Step(s, events[0]), events[1..], id);
    }
  }

  /** Once a subscriber has left, no run offers it anything more. */
  lemma LeftHearsNothing(s: System, id: nat, events: seq<Event>)
    requires Possible(s, Leave(id)) && id in s.sidecar.subs && ValidRun(Step(s, Leave(id)), events)
    ensures id in Run(Step(s, Leave(id)), events).sidecar.subs
    ensures Run(Step(s, Leave(id)), events).sidecar.subs[id].offers == s.sidecar.subs[id].offers
  {
    UnregisteredHearsNothing(Step(s, Leave(id)), events, id);
  }

  /** A plain name asks for the flag of that name, if it is a legal path and not the route of the stream. */
  lemma PlainNameAsks(name: string)
    requires PlainName(name) && !HasControl(name)
    ensures TargetOf(name) == if name == "" || name == "stream" then NoAnswer else SingleFlag(name)
  {
    assert IndexOf(name, '#') == |name| && name[..|name|] == name && IndexOf(name, '?') == |name|;
    assert Unescape("") == Some("");
  }

  lemma RunThree(s: System, a: Event, b: Event, c: Event)
    requires Possible(s, a) && Possible(Step(s, a), b) && Possible(Step(Step(s, a), b), c)
    ensures ValidRun(s, [a, b, c]) && Run(s, [a, b, c]) == Step(Step(Step(s, a), b), c)
  {
    var t, u := Step(s, a), Step(Step(s, a), b);
    assert [a, b, c][1..] == [b, c] && [b, c][1..] == [c] && [c][1..] == [];
    assert Run(u, [c]) == Step(u, c) && Run(t, [b, c]) == Run(u, [c]);
  }

  /** A fetch by a plain name brings the flag of that name into the cache, and nothing if there is none. */
  lemma FetchStores(s: System, id: nat, name: string)
    requires id !in s.client.fetches && PlainName(name) && !HasControl(name) && name != "" && name != "stream"
    ensures var fetch := [Ask(id, AskOne(name)), Answer(id, [], None), Store(id)];
      && ValidRun(s, fetch)
      && Run(s, fetch).client.cache
        == if name in s.sidecar.flags then s.client.cache[name := View(s.sidecar.flags[name])] else s.client.cache
  {
    PlainNameAsks(name);
    RunThree(s, Ask(id, AskOne(name)), Answer(id, [], None), Store(id));
  }

  function Stores(id: nat, n: nat): (r: seq<Event>)
    ensures |r| == n && forall i | 0 <= i < n :: r[i] == Store(id)
  {
    seq(n, _ => Store(id))
  }

  /** The cache holds these entries and, under other names, what it held before. */
  ghost predicate Took(cache: map<string, Flag>, before: map<string, Flag>, entries: seq<Entry>) {
    && (forall i | 0 <= i < |entries| :: entries[i].key in cache && cache[entries[i].key] == entries[i].flag)
    && (forall n | n in before && n !in KeysOf(entries) :: n in cache && cache[n] == before[n])
  }

  ghost function KeysOf(entries: seq<Entry>): set<string> {
    set i | 0 <= i < |entries| :: entries[i].key
  }

  lemma TookOneMore(cache: map<string, Flag>, before: map<string, Flag>, entries: seq<Entry>)
    requires entries != [] && entries[0].key !in KeysOf(entries[1..])
    requires Took(cache, before[entries[0].key := entries[0].flag], entries[1..])
    ensures Took(cache, before, entries)
  {
    forall i | 0 < i < |entries|
      ensures entries[i].key in cache && cache[entries[i].key] == entries[i].flag && entries[i].key in KeysOf(entries)
    {
      assert entries[1..][i - 1] == entries[i];
    }
    forall n | n in KeysOf(entries[1..]) ensures n in KeysOf(entries) {
      var i :| 0 <= i < |entries[1..]| && entries[1..][i].key == n;
      assert entries[i + 1].key == n;
    }
    assert entries[0].key in KeysOf(entries);
  }

  /** Storing the entries of an answer one by one. */
  lemma {:induction false} StoresTakeAll(s: System, id: nat, entries: seq<Entry>)
    requires id in s.client.fetches && s.client.fetches[id] == Answered(entries)
    requires forall i, j | 0 <= i < j < |entries| :: entries[i].key != entries[j].key
    ensures ValidRun(s, Stores(id, |entries|))
    ensures Took(Run(s, Stores(id, |entries|)).client.cache, s.client.cache, entries)
    decreases |entries|
  {
    if entries != [] {
      var run := Stores(id, |entries|);
      assert run[0] == Store(id) && run[1..] == Stores(id, |entries| - 1);
      StoresTakeAll(Step(s, Store(id)), id, entries[1..]);
      TookOneMore(Run(s, run).client.cache, s.client.cache, entries);
    }
  }

  lemma AnswerHoldsAll(flags: map<string, ResolvedFlag>, listing: seq<string>)
    requires IsListing(flags, listing) && forall n | n in flags :: flags[n].name == n
    ensures var entries := AllAnswer(flags, listing);
      && (forall i, j | 0 <= i < j < |entries| :: entries[i].key != entries[j].key)
      && (forall n | n in flags :: exists i :: 0 <= i < |entries| && entries[i] == Entry(n, View(flags[n])))
      && KeysOf(entries) == flags.Keys
  {
    var entries := AllAnswer(flags, listing);
    forall i | 0 <= i < |entries| ensures entries[i] == Entry(listing[i], View(flags[listing[i]])) { }
    forall n | n in flags ensures exists i :: 0 <= i < |entries| && entries[i] == Entry(n, View(flags[n])) {
      var i :| 0 <= i < |listing| && listing[i] == n;
      assert entries[i] == Entry(n, View(flags[n]));
    }
  }

  /** A full fetch brings every flag of the map into the cache, under its own name, and leaves other names alone. */
  lemma FetchAllStores(s: System, id: nat, listing: seq<string>)
    requires id !in s.client.fetches && IsListing(s.sidecar.flags, listing)
    requires forall n | n in s.sidecar.flags :: s.sidecar.flags[n].name == n
    ensures var t := Step(Step(s, Ask(id, AskAll)), Answer(id, listing, None));
      && ValidRun(t, Stores(id, |listing|))
      && var cache := Run(t, Stores(id, |listing|)).client.cache;
      && (forall n | n in s.sidecar.flags :: n in cache && cache[n] == View(s.sidecar.flags[n]))
      && (forall n | n in s.client.cache && n !in s.sidecar.flags :: n in cache && cache[n] == s.client.cache[n])
  {
    var t := Step(Step(s, Ask(id, AskAll)), Answer(id, listing, None));
    var entries := AllAnswer(s.sidecar.flags, listing);
    AnswerHoldsAll(s.sidecar.flags, listing);
    StoresTakeAll(t, id, entries);
  }
}
