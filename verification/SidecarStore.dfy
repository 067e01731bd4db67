/** The sidecar's store: a map of resolved flags and a broadcaster over bounded channels that drop when full. */
module SidecarStore {
  import opened Results
  import opened FeatureFlags

  datatype ResolvedFlag =
    ResolvedFlag(name: string, flagType: FlagType, value: string, disabled: bool, description: string)

  /** The view served to SDKs: a status value, once there is one, wins over the default. */
  function ResolveFlag(name: string, ff: FeatureFlag): ResolvedFlag {
    ResolvedFlag(name, ff.spec.flagType,
      if ff.status.currentValue != "" then ff.status.currentValue else ff.spec.defaultValue,
      ff.spec.disabled, ff.spec.description)
  }

  const CAPACITY := 64

  /** One broadcast as a subscriber met it. */
  datatype Offer = Offer(flag: ResolvedFlag, buffered: nat, dropped: bool)

  function Kept(offers: seq<Offer>): seq<ResolvedFlag> {
    if offers == [] then [] else
      var last := offers[|offers| - 1];
      Kept(offers[..|offers| - 1]) + (if last.dropped then [] else [last.flag])
  }

  function Offered(offers: seq<Offer>): (r: seq<ResolvedFlag>)
    ensures |r| == |offers| && forall i | 0 <= i < |r| :: r[i] == offers[i].flag
  {
    seq(|offers|, i requires 0 <= i < |offers| => offers[i].flag)
  }

  /** The indices `at` pick the elements of `sub` out of `whole`, in order. */
  ghost predicate PicksOut<T>(sub: seq<T>, whole: seq<T>, at: seq<nat>) {
    && |at| == |sub|
    && (forall i | 0 <= i < |at| :: at[i] < |whole| && whole[at[i]] == sub[i])
    && (forall i, j | 0 <= i < j < |at| :: at[i] < at[j])
  }

  /** The positions that were not dropped, in order. */
  function KeptAt(offers: seq<Offer>): seq<nat> {
    if offers == [] then [] else
      var n := |offers| - 1;
      KeptAt(offers[..n]) + (if offers[n].dropped then [] else [n])
  }

  lemma {:induction false} KeptAtRises(offers: seq<Offer>)
    ensures forall i | 0 <= i < |KeptAt(offers)| :: KeptAt(offers)[i] < |offers|
    ensures forall i, j | 0 <= i < j < |KeptAt(offers)| :: KeptAt(offers)[i] < KeptAt(offers)[j]
  {
    if offers != [] { KeptAtRises(offers[..|offers| - 1]); }
  }

  lemma {:induction false} KeptAtPicks(offers: seq<Offer>)
    ensures |KeptAt(offers)| == |Kept(offers)|
    ensures forall i | 0 <= i < |KeptAt(offers)| ::
      KeptAt(offers)[i] < |offers| && offers[KeptAt(offers)[i]].flag == Kept(offers)[i]
  {
    if offers != [] { KeptAtPicks(offers[..|offers| - 1]); }
  }

  lemma {:induction false} KeptAtContains(offers: seq<Offer>, i: nat)
    requires i < |offers| && !offers[i].dropped
    ensures i in KeptAt(offers)
  {
    if i < |offers| - 1 { KeptAtContains(offers[..|offers| - 1], i); }
  }

  /** What was kept is an in-order subsequence of what was offered, and it misses only what was dropped. */
  lemma KeptIsSubsequence(offers: seq<Offer>)
    ensures PicksOut(Kept(offers), Offered(offers), KeptAt(offers))
    ensures forall i | 0 <= i < |offers| && !offers[i].dropped :: i in KeptAt(offers)
  {
    KeptAtRises(offers);
    KeptAtPicks(offers);
    forall i | 0 <= i < |offers| && !offers[i].dropped ensures i in KeptAt(offers) { KeptAtContains(offers, i); }
  }

  ghost predicate DropsOnlyWhenFull(offers: seq<Offer>) {
    forall i | 0 <= i < |offers| :: offers[i].dropped <==> offers[i].buffered == CAPACITY
  }

  /** The non-blocking send. */
  function Enqueue(buffer: seq<ResolvedFlag>, f: ResolvedFlag): seq<ResolvedFlag> {
    if |buffer| < CAPACITY then buffer + [f] else buffer
  }

  function OfferTo(buffer: seq<ResolvedFlag>, f: ResolvedFlag): Offer {
    Offer(f, |buffer|, |buffer| >= CAPACITY)
  }

  class Channel {
    var buffer: seq<ResolvedFlag>
    var closed: bool
    ghost var consumed: seq<ResolvedFlag>
    ghost var offers: seq<Offer>

    /** Nothing is reordered or invented, and nothing is lost except to a full buffer. */
    ghost predicate Lossy()
      reads this
    {
      |buffer| <= CAPACITY && consumed + buffer == Kept(offers) && DropsOnlyWhenFull(offers)
    }

    constructor ()
      ensures buffer == [] && consumed == [] && offers == [] && !closed && Lossy()
    {
      buffer, closed, consumed, offers := [], false, [], [];
    }

    method TrySend(f: ResolvedFlag)
      requires !closed && Lossy()
      modifies this
      ensures buffer == Enqueue(old(buffer), f) && !closed && Lossy()
      ensures consumed == old(consumed) && offers == old(offers) + [OfferTo(old(buffer), f)]
    {
      offers := offers + [OfferTo(buffer, f)];
      assert offers[..|offers| - 1] == old(offers);
      if |buffer| < CAPACITY {
        buffer := buffer + [f];
      }
    }

    method Receive() returns (f: ResolvedFlag)
      requires buffer != [] && Lossy()
      modifies this
      ensures f == old(buffer)[0] && buffer == old(buffer)[1..] && closed == old(closed) && Lossy()
      ensures consumed == old(consumed) + [f] && offers == old(offers)
    {
      f := buffer[0];
      buffer := buffer[1..];
      consumed := consumed + [f];
    }
  }

  class FlagStore {
    var flags: map<string, ResolvedFlag>
    var subscribers: set<Channel>

    /** Every key is its entry's name, and every subscribed channel is open. */
    ghost predicate Valid()
      reads this, subscribers
    {
      && (forall n | n in flags :: flags[n].name == n)
      && (forall ch | ch in subscribers :: !ch.closed && ch.Lossy())
    }

    constructor ()
      ensures Valid() && flags == map[] && subscribers == {}
    {
      flags, subscribers := map[], {};
    }

    method Set(f: ResolvedFlag)
      requires Valid()
      modifies this`flags, subscribers
      ensures Valid() && flags == old(flags)[f.name := f]
      ensures forall ch | ch in subscribers ::
        && ch.buffer == Enqueue(old(ch.buffer), f)
        && ch.consumed == old(ch.consumed) && ch.offers == old(ch.offers) + [OfferTo(old(ch.buffer), f)]
    {
      flags := flags[f.name := f];
      Broadcast(f);
    }

    method Delete(name: string)
      requires Valid()
      modifies this`flags
      ensures Valid() && flags == old(flags) - {name}
    {
      flags := flags - {name};
    }

    method Get(name: string) returns (r: Option<ResolvedFlag>)
      requires Valid()
      ensures r.Some? <==> name in flags
      ensures r.Some? ==> r.value == flags[name] && r.value.name == name
    {
      r := if name in flags then Some(flags[name]) else None;
    }

    /** The map order is arbitrary; every entry comes out exactly once. */
    method All() returns (result: seq<ResolvedFlag>)
      requires Valid()
      ensures multiset(result) == multiset(set n | n in flags :: flags[n])
    {
      result := [];
      var rest := flags.Keys;
      while rest != {}
        invariant rest <= flags.Keys
        invariant multiset(result) == multiset(set n | n in flags && n !in rest :: flags[n])
        decreases rest
      {
        var n :| n in rest;
        var before := set m | m in flags && m !in rest :: flags[m];
        assert flags[n] !in before by {
          forall m | m in flags && m !in rest ensures flags[m] != flags[n] {
            assert flags[m].name == m && flags[n].name == n;
          }
        }
        assert (set m | m in flags && m !in rest - {n} :: flags[m]) == before + {flags[n]};
        result := result + [flags[n]];
        rest := rest - {n};
      }
      assert (set n | n in flags && n !in {} :: flags[n]) == (set n | n in flags :: flags[n]);
    }

    method Subscribe() returns (ch: Channel)
      requires Valid()
      modifies this`subscribers
      ensures Valid() && fresh(ch) && ch.buffer == [] && ch.consumed == [] && ch.offers == []
      ensures subscribers == old(subscribers) + {ch}
    {
      ch := new Channel();
      subscribers := subscribers + {ch};
    }

    /** First out of the set, then closed: so a broadcast never meets a closed channel. */
    method Unsubscribe(ch: Channel)
      requires Valid() && !ch.closed
      modifies this`subscribers, ch`closed
      ensures Valid() && subscribers == old(subscribers) - {ch} && ch.closed
    {
      subscribers := subscribers - {ch};
      ch.closed := true;
    }

    method Broadcast(f: ResolvedFlag)
      requires Valid()
      modifies subscribers
      ensures Valid()
      ensures forall ch | ch in subscribers ::
        && ch.buffer == Enqueue(old(ch.buffer), f)
        && ch.consumed == old(ch.consumed) && ch.offers == old(ch.offers) + [OfferTo(old(ch.buffer), f)]
    {
      var rest := subscribers;
      while rest != {}
        invariant rest <= subscribers
        invariant Valid()
        invariant forall ch | ch in rest ::
          ch.buffer == old(ch.buffer) && ch.consumed == old(ch.consumed) && ch.offers == old(ch.offers)
        invariant forall ch | ch in subscribers - rest ::
          && ch.buffer == Enqueue(old(ch.buffer), f)
          && ch.consumed == old(ch.consumed) && ch.offers == old(ch.offers) + [OfferTo(old(ch.buffer), f)]
        decreases rest
      {
        var ch :| ch in rest;
        ch.TrySend(f);
        rest := rest - {ch};
      }
    }
  }
}
