/** When the SDK's cache and the sidecar's map agree: a stream that stays connected, drops nothing and is drained. */
module CacheAgreement {
  import opened Results
  import opened SidecarStore
  import opened EnvProvider
  import opened FlagPaths
  import opened SidecarProtocol

  /** Every cached flag, apart from the odd names, is the map's flag of that name. */
  ghost predicate Agrees(flags: map<string, ResolvedFlag>, cache: map<string, Flag>, odd: set<string>) {
    forall n | n in cache && n !in odd :: n in flags && cache[n] == View(flags[n])
  }

  // ---- What the stream still has to say ---------------------------------------------------

  function Views(fs: seq<ResolvedFlag>): (r: seq<Flag>)
    ensures |r| == |fs| && forall i | 0 <= i < |r| :: r[i] == View(fs[i])
  {
    seq(|fs|, i requires 0 <= i < |fs| => View(fs[i]))
  }

  /** Everything on its way to the client, oldest first: on the wire, in the channel, about to be broadcast. */
  function Queue(s: System, id: nat): seq<Flag>
    requires id in s.sidecar.subs
  {
    QueueOf(s.client.wire, s.sidecar.subs[id].buffer, s.sidecar.pending)
  }

  function QueueOf(wire: seq<Flag>, buffer: seq<ResolvedFlag>, pending: Option<ResolvedFlag>): seq<Flag> {
    wire + Views(buffer) + (if pending.Some? then [View(pending.value)] else [])
  }

  /** Moving a flag along the stream changes nothing but where it waits. */
  lemma SendingKeepsQueue(wire: seq<Flag>, buffer: seq<ResolvedFlag>, pending: Option<ResolvedFlag>, f: ResolvedFlag)
    ensures QueueOf(wire + [View(f)], buffer, pending) == QueueOf(wire, [f] + buffer, pending)
    ensures QueueOf(wire, buffer + [f], None) == QueueOf(wire, buffer, Some(f))
  {
    assert Views([f] + buffer) == [View(f)] + Views(buffer);
    assert Views(buffer + [f]) == Views(buffer) + [View(f)];
  }

  /** The cache after reading a queue. */
  function Apply(cache: map<string, Flag>, queue: seq<Flag>): map<string, Flag> {
    if queue == [] then cache else
      var last := queue[|queue| - 1];
      Apply(cache, queue[..|queue| - 1])[last.name := last]
  }

  /** Reading a queue: the last flag of a name wins, and other names keep what was cached. */
  lemma {:induction false} LastOfNameWins(cache: map<string, Flag>, queue: seq<Flag>, name: string)
    ensures (exists i :: 0 <= i < |queue| && queue[i].name == name) ==>
      name in Apply(cache, queue) && exists i ::
        && 0 <= i < |queue| && queue[i].name == name && Apply(cache, queue)[name] == queue[i]
        && forall j | i < j < |queue| :: queue[j].name != name
    ensures (forall i | 0 <= i < |queue| :: queue[i].name != name) ==>
      && (name in Apply(cache, queue) <==> name in cache)
      && (name in cache ==> Apply(cache, queue)[name] == cache[name])
  {
    if queue != [] {
      var n := |queue| - 1;
      LastOfNameWins(cache, queue[..n], name);
      if queue[n].name != name && exists i :: 0 <= i < |queue| && queue[i].name == name {
        var i :| 0 <= i < |queue| && queue[i].name == name;
        assert queue[..n][i] == queue[i];
        var m :|
          && 0 <= m < n && queue[..n][m].name == name && Apply(cache, queue[..n])[name] == queue[..n][m]
          && forall j | m < j < n :: queue[..n][j].name != name;
        forall j | m < j < |queue| ensures queue[j].name != name { if j < n { assert queue[..n][j] == queue[j]; } }
        assert queue[m] == queue[..n][m];
      }
    }
  }

  lemma {:induction false} ReadFirst(cache: map<string, Flag>, queue: seq<Flag>)
    requires queue != []
    ensures Apply(cache[queue[0].name := queue[0]], queue[1..]) == Apply(cache, queue)
  {
    if |queue| > 1 {
      var front := queue[..|queue| - 1];
      ReadFirst(cache, front);
      assert front[1..] == queue[1..][..|queue[1..]| - 1];
    } else {
      assert queue[..0] == [];
    }
  }

  /** A fetched value stored under the queue's nose only matters for a name the queue does not mention. */
  lemma {:induction false} StoreUnderQueue(cache: map<string, Flag>, k: string, v: Flag, queue: seq<Flag>)
    ensures var a, b := Apply(cache[k := v], queue), Apply(cache, queue);
      forall m | m in a :: (m in b && a[m] == b[m]) || (m == k && a[m] == v)
  {
    if queue != [] {
      var front, last := queue[..|queue| - 1], queue[|queue| - 1];
      StoreUnderQueue(cache, k, v, front);
      assert Apply(cache[k := v], queue) == Apply(cache[k := v], front)[last.name := last];
      assert Apply(cache, queue) == Apply(cache, front)[last.name := last];
    }
  }

  // ---- The conditions ---------------------------------------------------------------------

  /** No fetch has read a flag it has yet to store at the moment that flag is updated or deleted. */
  ghost predicate NoStraddle(s: System, e: Event) {
    e.Write? || e.Delete? ==>
      var name := if e.Write? then e.flag.name else e.name;
      forall id | id in s.client.fetches && s.client.fetches[id].Answered? ::
        forall i | 0 <= i < |s.client.fetches[id].entries| :: s.client.fetches[id].entries[i].key != name
  }

  ghost predicate NoStraddles(s: System, events: seq<Event>)
    requires ValidRun(s, events)
    decreases |events|
  {
    events == [] || (NoStraddle(s, events[0]) && NoStraddles(Step(s, events[0]), events[1..]))
  }

  /** The stream stays connected, no deletion happens, and the client's channel has room at every broadcast. */
  predicate Calm(s: System, e: Event, id: nat) {
    && !e.Cut? && !e.Delete? && e != Leave(id)
    && (e.Broadcast? && id in s.sidecar.subs ==> |s.sidecar.subs[id].buffer| < CAPACITY)
  }

  ghost predicate CalmRun(s: System, events: seq<Event>, id: nat)
    requires ValidRun(s, events)
    decreases |events|
  {
    events == [] || (Calm(s, events[0], id) && CalmRun(Step(s, events[0]), events[1..], id))
  }

  // ---- Invariants -------------------------------------------------------------------------

  /** The map is keyed by name, and what is about to be broadcast is in it. */
  ghost predicate Keyed(s: Sidecar) {
    && (forall n | n in s.flags :: s.flags[n].name == n)
    && (s.pending.Some? ==> s.pending.value.name in s.flags && s.flags[s.pending.value.name] == s.pending.value)
  }

  ghost predicate EntriesCurrent(s: System, entries: seq<Entry>, odd: set<string>) {
    forall i | 0 <= i < |entries| ::
      entries[i].key in odd ||
      (entries[i].key == entries[i].flag.name && entries[i].key in s.sidecar.flags
       && entries[i].flag == View(s.sidecar.flags[entries[i].key]))
  }

  /** What fetches have read and not yet stored is current. */
  ghost predicate Unstale(s: System, odd: set<string>) {
    forall id | id in s.client.fetches && s.client.fetches[id].Answered? ::
      EntriesCurrent(s, s.client.fetches[id].entries, odd)
  }

  ghost predicate FetchesFresh(s: System, odd: set<string>) {
    Keyed(s.sidecar) && AsksWithin(s, odd) && Unstale(s, odd)
  }

  lemma StepKeepsKeyed(s: System, e: Event, odd: set<string>)
    requires Possible(s, e) && Keyed(s.sidecar) && AsksWithin(s, odd) && AskWithin(e, odd)
    ensures Keyed(Step(s, e).sidecar) && AsksWithin(Step(s, e), odd)
  {
  }

  lemma {:induction false} RunKeepsKeyed(s: System, events: seq<Event>, odd: set<string>)
    requires ValidRun(s, events) && Keyed(s.sidecar) && AsksWithin(s, odd) && FetchesWithin(events, odd)
    ensures Keyed(Run(s, events).sidecar) && AsksWithin(Run(s, events), odd)
    decreases |events|
  {
    if events != [] {
      assert AskWithin(events[0], odd);
      StepKeepsKeyed(s, events[0], odd);
      RunKeepsKeyed(Step(s, events[0]), events[1..], odd);
    }
  }

  lemma ChangeKeepsFresh(s: System, e: Event, odd: set<string>)
    requires (e.Write? || e.Delete?) && Possible(s, e) && FetchesFresh(s, odd) && NoStraddle(s, e)
    ensures Unstale(Step(s, e), odd)
  {
  }

  lemma SingleAnswerIsCurrent(s: System, name: string, elsewhere: Option<Flag>, odd: set<string>)
    requires Keyed(s.sidecar) && (PlainName(name) || name in odd)
    ensures EntriesCurrent(s, SingleAnswer(s.sidecar.flags, name, elsewhere), odd)
  {
    if TargetOf(name) != NoAnswer {
      PlainIffOwnPath(name);
    }
  }

  lemma AllAnswerIsCurrent(s: System, listing: seq<string>, odd: set<string>)
    requires Keyed(s.sidecar) && forall i | 0 <= i < |listing| :: listing[i] in s.sidecar.flags
    ensures EntriesCurrent(s, AllAnswer(s.sidecar.flags, listing), odd)
  {
  }

  lemma AnswerIsCurrent(s: System, e: Event, odd: set<string>)
    requires e.Answer? && Possible(s, e) && FetchesFresh(s, odd)
    ensures Step(s, e).client.fetches[e.fetch].Answered?
    ensures EntriesCurrent(s, Step(s, e).client.fetches[e.fetch].entries, odd)
  {
    match s.client.fetches[e.fetch]
    case AskOne(name) => SingleAnswerIsCurrent(s, name, e.elsewhere, odd);
    case AskAll => AllAnswerIsCurrent(s, e.listing, odd);
    case Answered(_) =>
  }

  lemma AnswerKeepsFresh(s: System, e: Event, odd: set<string>)
    requires e.Answer? && Possible(s, e) && FetchesFresh(s, odd)
    ensures Unstale(Step(s, e), odd)
  {
    AnswerIsCurrent(s, e, odd);
  }

  lemma StoreKeepsFresh(s: System, e: Event, odd: set<string>)
    requires e.Store? && Possible(s, e) && FetchesFresh(s, odd)
    ensures Unstale(Step(s, e), odd)
  {
  }

  lemma StepKeepsFresh(s: System, e: Event, odd: set<string>)
    requires Possible(s, e) && FetchesFresh(s, odd) && NoStraddle(s, e) && AskWithin(e, odd)
    ensures FetchesFresh(Step(s, e), odd)
  {
    StepKeepsKeyed(s, e, odd);
    if e.Write? || e.Delete? {
      ChangeKeepsFresh(s, e, odd);
    } else if e.Answer? {
      AnswerKeepsFresh(s, e, odd);
    } else if e.Store? {
      StoreKeepsFresh(s, e, odd);
    }
  }

  /** Once the queue is read, cache and map agree. */
  ghost predicate OnCourse(s: System, id: nat, odd: set<string>) {
    && id in s.sidecar.subs && id in s.sidecar.registered && s.client.stream == Some(id)
    && FetchesFresh(s, odd)
    && Agrees(s.sidecar.flags, Apply(s.client.cache, Queue(s, id)), odd)
  }

  predicate Connected(s: System, id: nat) {
    id in s.sidecar.subs && id in s.sidecar.registered && s.client.stream == Some(id)
  }

  lemma StaysConnected(s: System, e: Event, id: nat)
    requires Possible(s, e) && Connected(s, id) && Calm(s, e, id)
    ensures Connected(Step(s, e), id)
  {
  }

  lemma MovingKeepsQueue(s: System, e: Event, id: nat)
    requires Possible(s, e) && Connected(s, id) && Calm(s, e, id)
    requires !e.Write? && !e.Read? && !e.Store?
    ensures id in Step(s, e).sidecar.subs && Queue(Step(s, e), id) == Queue(s, id)
    ensures Step(s, e).sidecar.flags == s.sidecar.flags && Step(s, e).client.cache == s.client.cache
  {
    var b, t := s.sidecar.subs[id].buffer, Step(s, e);
    if e.Broadcast? {
      SendingKeepsQueue(s.client.wire, b, None, s.sidecar.pending.value);
      assert t.sidecar.subs[id].buffer == b + [s.sidecar.pending.value];
    } else if e.Receive? && e.id == id {
      SendingKeepsQueue(s.client.wire, b[1..], s.sidecar.pending, b[0]);
      assert b == [b[0]] + t.sidecar.subs[id].buffer;
    } else {
      assert t.sidecar.subs[id].buffer == b && t.sidecar.pending == s.sidecar.pending;
      assert t.client.wire == s.client.wire;
    }
  }

  lemma WriteKeepsAgreement(s: System, e: Event, id: nat, odd: set<string>)
    requires e.Write? && Possible(s, e) && OnCourse(s, id, odd)
    ensures Agrees(Step(s, e).sidecar.flags, Apply(Step(s, e).client.cache, Queue(Step(s, e), id)), odd)
  {
    var q, q' := Queue(s, id), Queue(Step(s, e), id);
    assert q' == q + [View(e.flag)];
    assert q'[..|q'| - 1] == q;
  }

  lemma ReadKeepsAgreement(s: System, e: Event, id: nat, odd: set<string>)
    requires e.Read? && Possible(s, e) && OnCourse(s, id, odd)
    ensures Agrees(Step(s, e).sidecar.flags, Apply(Step(s, e).client.cache, Queue(Step(s, e), id)), odd)
  {
    var q, q' := Queue(s, id), Queue(Step(s, e), id);
    assert q[0] == s.client.wire[0] && q' == q[1..];
    ReadFirst(s.client.cache, q);
  }

  lemma StoreKeepsAgreement(s: System, e: Event, id: nat, odd: set<string>)
    requires e.Store? && Possible(s, e) && OnCourse(s, id, odd)
    ensures Agrees(Step(s, e).sidecar.flags, Apply(Step(s, e).client.cache, Queue(Step(s, e), id)), odd)
  {
    var entries := s.client.fetches[e.fetch].entries;
    if entries != [] { StoreUnderQueue(s.client.cache, entries[0].key, entries[0].flag, Queue(s, id)); }
  }

  lemma StepKeepsCourse(s: System, e: Event, id: nat, odd: set<string>)
    requires Possible(s, e) && OnCourse(s, id, odd) && NoStraddle(s, e) && Calm(s, e, id)
    requires AskWithin(e, odd)
    ensures OnCourse(Step(s, e), id, odd)
  {
    StepKeepsFresh(s, e, odd);
    StaysConnected(s, e, id);
    if e.Write? {
      WriteKeepsAgreement(s, e, id, odd);
    } else if e.Read? {
      ReadKeepsAgreement(s, e, id, odd);
    } else if e.Store? {
      StoreKeepsAgreement(s, e, id, odd);
    } else {
      MovingKeepsQueue(s, e, id);
    }
  }

  lemma {:induction false} RunKeepsCourse(s: System, events: seq<Event>, id: nat, odd: set<string>)
    requires ValidRun(s, events) && OnCourse(s, id, odd)
    requires NoStraddles(s, events) && CalmRun(s, events, id) && FetchesWithin(events, odd)
    ensures OnCourse(Run(s, events), id, odd)
    decreases |events|
  {
    if events != [] {
      assert AskWithin(events[0], odd);
      StepKeepsCourse(s, events[0], id, odd);
      RunKeepsCourse(Step(s, events[0]), events[1..], id, odd);
    }
  }

  /** A new subscription with an empty cache is on course: at most one flag is on its way. */
  lemma SubscriptionStartsCourse(s: System, id: nat, odd: set<string>)
    requires Possible(s, Subscribe(id, true)) && FetchesFresh(s, odd) && s.client.cache == map[]
    ensures OnCourse(Step(s, Subscribe(id, true)), id, odd)
  {
    var t := Step(s, Subscribe(id, true));
    StepKeepsFresh(s, Subscribe(id, true), odd);
    if t.sidecar.pending.Some? {
      var v := View(t.sidecar.pending.value);
      assert Queue(t, id) == [v] && [v][..0] == [];
      assert Apply(map[], [v]) == map[v.name := v];
    } else {
      assert Queue(t, id) == [];
    }
  }

  /** Any run up to a subscription with an empty cache and no outdated answer still to be stored, then any calm run in
      which no fetch straddles an update: once the stream is drained, cache and map agree on every cached name, apart
      from odd names that were fetched although they are not plain. */
  lemma DrainedCacheAgrees(before: seq<Event>, id: nat, after: seq<Event>, odd: set<string>)
    requires ValidRun(INIT, before) && Possible(Run(INIT, before), Subscribe(id, true))
    requires Run(INIT, before).client.cache == map[] && Unstale(Run(INIT, before), odd)
    requires ValidRun(Step(Run(INIT, before), Subscribe(id, true)), after)
    requires FetchesWithin(before, odd) && FetchesWithin(after, odd)
    requires NoStraddles(Step(Run(INIT, before), Subscribe(id, true)), after)
    requires CalmRun(Step(Run(INIT, before), Subscribe(id, true)), after, id)
    ensures var end := Run(Step(Run(INIT, before), Subscribe(id, true)), after);
      && id in end.sidecar.subs
      && (Queue(end, id) == [] ==> Agrees(end.sidecar.flags, end.client.cache, odd))
  {
    RunKeepsKeyed(INIT, before, odd);
    SubscriptionStartsCourse(Run(INIT, before), id, odd);
    RunKeepsCourse(Step(Run(INIT, before), Subscribe(id, true)), after, id, odd);
  }

  // ---- Progress ---------------------------------------------------------------------------

  /** How many moves the flags on their way still need: three from the broadcaster, two from the channel, one from the
      wire. */
  function Backlog(s: System, id: nat): nat
    requires id in s.sidecar.subs
  {
    (if s.sidecar.pending.Some? then 3 else 0) + 2 * |s.sidecar.subs[id].buffer| + |s.client.wire|
  }

  /** The steps that move a flag along: the broadcast, the send on this stream, and the read. */
  predicate Moves(e: Event, id: nat) {
    e.Broadcast? || e == Receive(id) || e.Read?
  }

  function CountMoves(events: seq<Event>, id: nat): nat {
    if events == [] then 0 else (if Moves(events[0], id) then 1 else 0) + CountMoves(events[1..], id)
  }

  lemma BacklogZero(s: System, id: nat)
    requires id in s.sidecar.subs
    ensures Backlog(s, id) == 0 <==> Queue(s, id) == []
  {
    assert |Queue(s, id)|
      == |s.client.wire| + |s.sidecar.subs[id].buffer| + (if s.sidecar.pending.Some? then 1 else 0);
  }

  lemma MoveShrinksBacklog(s: System, e: Event, id: nat)
    requires Possible(s, e) && Connected(s, id) && Calm(s, e, id) && !e.Write?
    ensures Connected(Step(s, e), id)
    ensures Backlog(Step(s, e), id) == Backlog(s, id) - (if Moves(e, id) then 1 else 0)
  {
    StaysConnected(s, e, id);
  }

  /** In a calm run without writes every move takes one from the backlog and nothing else changes it. So the run has at
      most as many moves as the backlog, and the stream is drained exactly when it has as many. */
  lemma {:induction false} MovesDrain(s: System, events: seq<Event>, id: nat)
    requires ValidRun(s, events) && Connected(s, id) && CalmRun(s, events, id)
    requires forall i | 0 <= i < |events| :: !events[i].Write?
    ensures Connected(Run(s, events), id)
    ensures CountMoves(events, id) <= Backlog(s, id)
    ensures Queue(Run(s, events), id) == [] <==> CountMoves(events, id) == Backlog(s, id)
    decreases |events|
  {
    if events == [] {
      BacklogZero(s, id);
    } else {
      MoveShrinksBacklog(s, events[0], id);
      MovesDrain(Step(s, events[0]), events[1..], id);
    }
  }

  /** Nothing gets stuck: while there is a backlog, some move is possible and calm. */
  lemma SomeMovePossible(s: System, id: nat) returns (e: Event)
    requires Connected(s, id) && Backlog(s, id) > 0
    ensures Moves(e, id) && Possible(s, e) && Calm(s, e, id)
  {
    e := if s.client.wire != [] then Read
         else if s.sidecar.subs[id].buffer != [] then Receive(id)
         else Broadcast;
  }

  lemma OneStepFirst(s: System, e: Event, rest: seq<Event>, id: nat)
    requires Possible(s, e) && Calm(s, e, id) && ValidRun(Step(s, e), rest) && CalmRun(Step(s, e), rest, id)
    ensures ValidRun(s, [e] + rest) && CalmRun(s, [e] + rest, id)
    ensures Run(s, [e] + rest) == Run(Step(s, e), rest)
  {
    assert ([e] + rest)[1..] == rest;
  }

  lemma MoveKeepsOutcome(s: System, e: Event, id: nat)
    requires Moves(e, id) && Possible(s, e) && Connected(s, id) && Calm(s, e, id)
    ensures id in Step(s, e).sidecar.subs && Step(s, e).sidecar.flags == s.sidecar.flags
    ensures Apply(Step(s, e).client.cache, Queue(Step(s, e), id)) == Apply(s.client.cache, Queue(s, id))
  {
    if e.Read? {
      assert Queue(s, id)[0] == s.client.wire[0] && Queue(Step(s, e), id) == Queue(s, id)[1..];
      ReadFirst(s.client.cache, Queue(s, id));
    } else {
      MovingKeepsQueue(s, e, id);
    }
  }

  /** From any connected state the stream can be drained by moves alone, and then the cache is what reading everything
      on its way makes of it. */
  lemma {:induction false} StreamDrains(s: System, id: nat) returns (events: seq<Event>)
    requires Connected(s, id)
    ensures ValidRun(s, events) && CalmRun(s, events, id) && |events| == Backlog(s, id)
    ensures forall i | 0 <= i < |events| :: Moves(events[i], id)
    ensures var end := Run(s, events);
      && id in end.sidecar.subs && Queue(end, id) == []
      && end.sidecar.flags == s.sidecar.flags && end.client.cache == Apply(s.client.cache, Queue(s, id))
    decreases Backlog(s, id)
  {
    BacklogZero(s, id);
    events := [];
    if Backlog(s, id) > 0 {
      var e := SomeMovePossible(s, id);
      MoveShrinksBacklog(s, e, id);
      MoveKeepsOutcome(s, e, id);
      var rest := StreamDrains(Step(s, e), id);
      OneStepFirst(s, e, rest, id);
      events := [e] + rest;
    }
  }

  /** An update can always arrive: from any connected state without a pending broadcast, the write and as many moves as
      there are to make bring the new flag into the cache and leave the stream drained. */
  lemma UpdateArrives(s: System, f: ResolvedFlag, id: nat) returns (events: seq<Event>)
    requires Connected(s, id) && s.sidecar.pending.None?
    ensures ValidRun(s, [Write(f)] + events) && CalmRun(s, [Write(f)] + events, id)
    ensures |events| == Backlog(s, id) + 3 && forall i | 0 <= i < |events| :: Moves(events[i], id)
    ensures var end := Run(s, [Write(f)] + events);
      && end.sidecar.flags == s.sidecar.flags[f.name := f]
      && id in end.sidecar.subs && Queue(end, id) == []
      && f.name in end.client.cache && end.client.cache[f.name] == View(f)
      && (Queue(s, id) == [] ==> end.client.cache == s.client.cache[f.name := View(f)])
  {
    var t := Step(s, Write(f));
    var q, q' := Queue(s, id), Queue(t, id);
    assert q' == q + [View(f)] && q'[..|q'| - 1] == q;
    events := StreamDrains(t, id);
    OneStepFirst(s, Write(f), events, id);
  }

  // ---- What a run writes is cached --------------------------------------------------------

  function NamesOf(queue: seq<Flag>): set<string> {
    set i | 0 <= i < |queue| :: queue[i].name
  }

  lemma {:induction false} AppliedKeys(cache: map<string, Flag>, queue: seq<Flag>)
    ensures Apply(cache, queue).Keys == cache.Keys + NamesOf(queue)
  {
    if queue != [] {
      var front, last := queue[..|queue| - 1], queue[|queue| - 1];
      AppliedKeys(cache, front);
      assert queue == front + [last];
      assert NamesOf(queue) == NamesOf(front) + {last.name} by {
        assert queue[|front|] == last;
        forall i | 0 <= i < |front| ensures queue[i].name in NamesOf(queue) { assert queue[i] == front[i]; }
        forall n | n in NamesOf(front) ensures n in NamesOf(queue) {
          var i :| 0 <= i < |front| && front[i].name == n;
          assert queue[i] == front[i];
        }
      }
    }
  }

  /** The names that will be cached once the stream is drained. */
  function Coming(s: System, id: nat): set<string>
    requires id in s.sidecar.subs
  {
    Apply(s.client.cache, Queue(s, id)).Keys
  }

  lemma StepKeepsComing(s: System, e: Event, id: nat)
    requires Possible(s, e) && Connected(s, id) && Calm(s, e, id)
    ensures id in Step(s, e).sidecar.subs && Coming(s, id) <= Coming(Step(s, e), id)
    ensures e.Write? ==> e.flag.name in Coming(Step(s, e), id)
  {
    StaysConnected(s, e, id);
    var t := Step(s, e);
    if e.Read? {
      MoveKeepsOutcome(s, e, id);
    } else if e.Write? {
      var q, q' := Queue(s, id), Queue(t, id);
      assert q' == q + [View(e.flag)];
      assert q'[..|q'| - 1] == q;
    } else if e.Store? {
      AppliedKeys(s.client.cache, Queue(s, id));
      AppliedKeys(t.client.cache, Queue(t, id));
    } else {
      MovingKeepsQueue(s, e, id);
    }
  }

  /** In a calm run every flag that is written is on its way to the cache or in it. */
  lemma {:induction false} WrittenIsComing(s: System, events: seq<Event>, id: nat, name: string)
    requires ValidRun(s, events) && Connected(s, id) && CalmRun(s, events, id)
    requires name in Coming(s, id) || exists i :: 0 <= i < |events| && events[i].Write? && events[i].flag.name == name
    ensures id in Run(s, events).sidecar.subs && name in Coming(Run(s, events), id)
    decreases |events|
  {
    if events != [] {
      StaysConnected(s, events[0], id);
      StepKeepsComing(s, events[0], id);
      if name !in Coming(Step(s, events[0]), id) {
        var i :| 0 <= i < |events| && events[i].Write? && events[i].flag.name == name;
        assert i > 0 && events[1..][i - 1] == events[i];
      }
      WrittenIsComing(Step(s, events[0]), events[1..], id, name);
    }
  }
}
