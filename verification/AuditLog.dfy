/** The audit log of the in-memory store: append, then filter, reverse in place and truncate. */
module AuditLog {
  import opened Results

  /** `details` stands for the opaque diff and metadata of an event. */
  datatype AuditEvent = AuditEvent(
    id: string, timestamp: int, actor: string, action: string,
    resource: string, resourceId: string, cluster: string, details: string)

  datatype AuditFilter = AuditFilter(
    resource: string, resourceId: string, action: string, cluster: string, actor: string,
    since: Option<int>, limit: int)

  predicate Passes(f: AuditFilter, e: AuditEvent) {
    && (f.resource != "" ==> e.resource == f.resource)
    && (f.resourceId != "" ==> e.resourceId == f.resourceId)
    && (f.action != "" ==> e.action == f.action)
    && (f.cluster != "" ==> e.cluster == f.cluster)
    && (f.actor != "" ==> e.actor == f.actor)
    && (f.since.Some? ==> e.timestamp >= f.since.value)
  }

  function Matching(events: seq<AuditEvent>, f: AuditFilter): seq<AuditEvent> {
    if events == [] then [] else
      var last := events[|events| - 1];
      Matching(events[..|events| - 1], f) + (if Passes(f, last) then [last] else [])
  }

  function Reversed<T>(s: seq<T>): (r: seq<T>)
    ensures |r| == |s| && forall i | 0 <= i < |r| :: r[i] == s[|s| - 1 - i]
  {
    seq(|s|, i requires 0 <= i < |s| => s[|s| - 1 - i])
  }

  function Truncated<T>(s: seq<T>, limit: int): seq<T> {
    if limit > 0 && |s| > limit then s[..limit] else s
  }

  function Listing(events: seq<AuditEvent>, f: AuditFilter): seq<AuditEvent> {
    Truncated(Reversed(Matching(events, f)), f.limit)
  }

  class MemoryAudit {
    var events: seq<AuditEvent>

    constructor ()
      ensures events == []
    {
      events := [];
    }

    /** The store, not the caller, sets id and time. */
    method RecordAudit(event: AuditEvent, freshId: string, now: int)
      modifies this
      ensures events == old(events) + [event.(id := freshId, timestamp := now)]
    {
      var e := event.(id := freshId, timestamp := now);
      events := events + [e];
    }

    method ListAuditEvents(filter: AuditFilter) returns (result: seq<AuditEvent>)
      ensures result == Listing(events, filter)
    {
      var matches: seq<AuditEvent> := [];
      for k := 0 to |events|
        invariant matches == Matching(events[..k], filter)
      {
        assert events[..k + 1][..k] == events[..k];
        var e := events[k];
        if filter.resource != "" && e.resource != filter.resource { continue; }
        if filter.resourceId != "" && e.resourceId != filter.resourceId { continue; }
        if filter.action != "" && e.action != filter.action { continue; }
        if filter.cluster != "" && e.cluster != filter.cluster { continue; }
        if filter.actor != "" && e.actor != filter.actor { continue; }
        if filter.since.Some? && e.timestamp < filter.since.value { continue; }
        matches := matches + [e];
      }
      assert events[..|events|] == events;
      var a := new AuditEvent[|matches|](i requires 0 <= i < |matches| => matches[i]);
      assert a[..] == matches;
      SwapEnds(a);
      result := a[..];
      if filter.limit > 0 && |result| > filter.limit {
        result := result[..filter.limit];
      }
    }

    /** Two indices walk towards each other, swapping what they meet. */
    static method SwapEnds(a: array<AuditEvent>)
      modifies a
      ensures a[..] == Reversed(old(a[..]))
    {
      var i, j := 0, a.Length - 1;
      while i < j
        invariant 0 <= i <= a.Length && j == a.Length - 1 - i && i <= j + 1
        invariant forall k | 0 <= k < i || j < k < a.Length :: a[k] == old(a[..])[a.Length - 1 - k]
        invariant forall k | i <= k <= j :: a[k] == old(a[..])[k]
      {
        a[i], a[j] := a[j], a[i];
        i, j := i + 1, j - 1;
      }
      assert |a[..]| == |Reversed(old(a[..]))|;
    }
  }

  // ---- What a reader of the log is promised -----------------------------------------------

  predicate TimesRise(s: seq<AuditEvent>) {
    forall i, j | 0 <= i < j < |s| :: s[i].timestamp <= s[j].timestamp
  }

  predicate TimesRiseStrictly(s: seq<AuditEvent>) {
    forall i, j | 0 <= i < j < |s| :: s[i].timestamp < s[j].timestamp
  }

  predicate NewestFirst(s: seq<AuditEvent>) {
    forall i, j | 0 <= i < j < |s| :: s[i].timestamp >= s[j].timestamp
  }

  /** The matches are a subsequence: they keep counts, order and bounds. */
  lemma {:induction false} MatchingCounts(events: seq<AuditEvent>, f: AuditFilter, e: AuditEvent)
    ensures multiset(Matching(events, f))[e] == if Passes(f, e) then multiset(events)[e] else 0
  {
    if events != [] {
      var front, last := events[..|events| - 1], events[|events| - 1];
      MatchingCounts(front, f, e);
      assert events == front + [last];
    }
  }

  lemma {:induction false} MatchingRises(events: seq<AuditEvent>, f: AuditFilter)
    requires TimesRise(events)
    ensures TimesRise(Matching(events, f))
    ensures TimesRiseStrictly(events) ==> TimesRiseStrictly(Matching(events, f))
    ensures forall i | 0 <= i < |Matching(events, f)| :: Matching(events, f)[i] in events
  {
    if events != [] {
      MatchingRises(events[..|events| - 1], f);
    }
  }

  lemma ReversedCounts<T>(s: seq<T>)
    ensures multiset(Reversed(s)) == multiset(s)
  {
    if s != [] {
      var front, last := s[..|s| - 1], s[|s| - 1];
      ReversedCounts(front);
      assert Reversed(s) == [last] + Reversed(front);
      assert s == front + [last];
    }
  }

  /** Of a list sorted newest first, no omitted element is newer than a kept one. */
  lemma TakeNewest(whole: seq<AuditEvent>, k: nat, e: AuditEvent)
    requires k <= |whole| && NewestFirst(whole) && e in multiset(whole) - multiset(whole[..k])
    ensures forall i | 0 <= i < k :: e.timestamp <= whole[i].timestamp
  {
    assert whole == whole[..k] + whole[k..];
    assert e in multiset(whole[k..]);
    var j :| 0 <= j < |whole[k..]| && whole[k..][j] == e;
    assert whole[k + j] == e;
  }

  /** The newest of some events, as many as the limit allows, newest first. */
  ghost predicate NewestOf(r: seq<AuditEvent>, all: multiset<AuditEvent>, limit: int) {
    && NewestFirst(r)
    && multiset(r) <= all
    && |r| == (if limit > 0 && |all| > limit then limit else |all|)
    && forall e | e in all - multiset(r) :: forall i | 0 <= i < |r| :: e.timestamp <= r[i].timestamp
  }

  lemma PrefixCounts(whole: seq<AuditEvent>, k: nat)
    requires k <= |whole|
    ensures multiset(whole[..k]) <= multiset(whole) && |multiset(whole)| == |whole|
  {
    assert whole == whole[..k] + whole[k..];
  }

  lemma TruncatedIsNewest(whole: seq<AuditEvent>, limit: int)
    requires NewestFirst(whole)
    ensures NewestOf(Truncated(whole, limit), multiset(whole), limit)
  {
    var k := |Truncated(whole, limit)|;
    var r := whole[..k];
    assert r == Truncated(whole, limit);
    PrefixCounts(whole, k);
    forall e | e in multiset(whole) - multiset(r) ensures forall i | 0 <= i < |r| :: e.timestamp <= r[i].timestamp {
      TakeNewest(whole, k, e);
    }
  }

  /** With append times that never fall, a listing is sorted newest first; it holds only matches, and as many as
      the limit allows; and no match that it omits is newer than one that it returns. */
  lemma ListingIsNewest(events: seq<AuditEvent>, f: AuditFilter)
    requires TimesRise(events)
    ensures NewestOf(Listing(events, f), multiset(Matching(events, f)), f.limit)
  {
    var matches := Matching(events, f);
    MatchingRises(events, f);
    ReversedCounts(matches);
    TruncatedIsNewest(Reversed(matches), f.limit);
  }

  lemma ListingOfNothing(f: AuditFilter)
    ensures Listing([], f) == []
  {
  }

  /** One more event goes to the front of a listing exactly if it meets each condition that the filter states; then the
      listing is cut at the limit. A field of the filter that is empty, and a limit that is not positive, state none. */
  lemma NewestGoesFirst(events: seq<AuditEvent>, e: AuditEvent, f: AuditFilter)
    ensures var passes :=
        && (f.resource == "" || e.resource == f.resource)
        && (f.resourceId == "" || e.resourceId == f.resourceId)
        && (f.action == "" || e.action == f.action)
        && (f.cluster == "" || e.cluster == f.cluster)
        && (f.actor == "" || e.actor == f.actor)
        && (f.since == None || e.timestamp >= f.since.value);
      var more := (if passes then [e] else []) + Listing(events, f);
      Listing(events + [e], f) == if f.limit > 0 && |more| > f.limit then more[..f.limit] else more
  {
    assert (events + [e])[..|events|] == events;
    var all := Reversed(Matching(events, f));
    if Passes(f, e) {
      assert Reversed(Matching(events + [e], f)) == [e] + all;
      if f.limit > 0 && |all| > f.limit { assert ([e] + all)[..f.limit] == ([e] + all[..f.limit])[..f.limit]; }
    } else {
      assert Matching(events + [e], f) == Matching(events, f);
      assert [] + Listing(events, f) == Listing(events, f);
    }
  }
}
