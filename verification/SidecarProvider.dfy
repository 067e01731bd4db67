/** The SDK's sidecar provider as it runs: a cache filled by single fetches, by full fetches and by the stream, and a
    reconnect loop with a growing delay. JSON is opaque: decoding is a function that the provider is given. */
module SidecarProvider {
  import opened Results
  import opened Text
  import opened EnvProvider
  import opened EventStream
  import opened CacheAgreement
  import opened Sequences
  import opened SidecarStore
  import Protocol = SidecarProtocol

  type Decoder = string -> Option<Flag>

  datatype HttpAnswer = Unreachable | Answered(status: int, body: string)

  /** One turn of the reconnect loop: the request cannot be built, the server cannot be reached, or a stream was read
      until it ended. */
  datatype Connection = BadRequest | Refused | Streamed(input: string)

  function FlagIn(payload: string, decode: Decoder): seq<Flag> {
    match decode(payload) case None => [] case Some(f) => [f]
  }

  /** The flags among some payloads; what does not decode is skipped. */
  function Decoded(payloads: seq<string>, decode: Decoder): seq<Flag> {
    if payloads == [] then [] else FlagIn(payloads[0], decode) + Decoded(payloads[1..], decode)
  }

  /** The cache after some turns of the reconnect loop. */
  function Filled(cache: map<string, Flag>, connections: seq<Connection>, decode: Decoder): map<string, Flag> {
    if connections == [] then cache
    else
      var before := Filled(cache, connections[..|connections| - 1], decode);
      match connections[|connections| - 1]
      case Streamed(input) => Apply(before, Decoded(Received(input), decode))
      case _ => before
  }

  // ---- The reconnect delay ----------------------------------------------------------------

  const MAX_BACKOFF := 30

  function Pow2(n: nat): nat {
    if n == 0 then 1 else 2 * Pow2(n - 1)
  }

  function Min(a: nat, b: nat): nat {
    if a < b then a else b
  }

  /** Refused connections since the last one that was accepted. */
  function Refusals(connections: seq<Connection>): nat {
    if connections == [] then 0
    else
      var before := Refusals(connections[..|connections| - 1]);
      match connections[|connections| - 1]
      case BadRequest => before
      case Refused => before + 1
      case Streamed(_) => 0
  }

  /** The sleeps of the loop, in seconds: each turn without a stream waits 2 to the number of refusals, at most 30. */
  function Delays(connections: seq<Connection>): seq<nat> {
    if connections == [] then []
    else
      var front := connections[..|connections| - 1];
      Delays(front)
      + (if connections[|connections| - 1].Streamed? then [] else [Min(Pow2(Refusals(front)), MAX_BACKOFF)])
  }

  // ---- The provider -----------------------------------------------------------------------

  class Provider {
    var cache: map<string, Flag>
    const decode: Decoder

    constructor (decode: Decoder)
      ensures cache == map[] && this.decode == decode
    {
      cache := map[];
      this.decode := decode;
    }

    /** The cache answers first; a fetched flag is stored under the name that was asked for. */
    method GetFlag(name: string, answer: HttpAnswer) returns (r: Result<Flag, string>)
      modifies this
      ensures r.Success? <==>
        name in old(cache) || (answer.Answered? && answer.status == 200 && decode(answer.body).Some?)
      ensures r.Success? ==> r.value == if name in old(cache) then old(cache)[name] else decode(answer.body).value
      ensures cache == if r.Success? then old(cache)[name := r.value] else old(cache)
    {
      if name in cache {
        assert cache[name := cache[name]] == cache;
        return Success(cache[name]);
      }
      if answer.Unreachable? { return Failure("sidecar request failed"); }
      if answer.status == 404 { return Failure("flag not found"); }
      if answer.status != 200 { return Failure("sidecar returned an error"); }
      var f := decode(answer.body);
      if f.None? { return Failure("invalid body"); }
      cache := cache[name := f.value];
      return Success(f.value);
    }

    /** Each listed flag is stored under its own name, later ones over earlier ones; the status is not looked at. */
    method GetAllFlags(reachable: bool, listed: Option<seq<Flag>>) returns (r: Result<seq<Flag>, string>)
      modifies this
      ensures r.Success? <==> reachable && listed.Some?
      ensures r.Success? ==> r.value == listed.value
      ensures cache == if r.Success? then Apply(old(cache), listed.value) else old(cache)
    {
      if !reachable || listed.None? { return Failure("sidecar request failed"); }
      var flags := listed.value;
      for k := 0 to |flags|
        invariant cache == Apply(old(cache), flags[..k])
      {
        assert flags[..k + 1][..k] == flags[..k];
        cache := cache[flags[k].name := flags[k]];
      }
      assert flags[..|flags|] == flags;
      return Success(flags);
    }

    /** One scanned line. */
    method StoreLine(line: string)
      modifies this
      ensures cache == Apply(old(cache), Decoded(PayloadOf(line), decode))
    {
      if !HasPrefix(line, DATA) { return; }
      var data := line[|DATA|..];
      assert PayloadOf(line) == [data] && Decoded([data], decode) == FlagIn(data, decode) + [];
      var f := decode(data);
      if f.Some? {
        assert [f.value][..0] == [];
        cache := cache[f.value.name := f.value];
      }
    }

    /** The line loop over one connection. */
    method ReadStream(input: string)
      modifies this
      ensures cache == Apply(old(cache), Decoded(Received(input), decode))
    {
      var rest := input;
      ghost var done: seq<string> := [];
      while rest != []
        invariant done + Received(rest) == Received(input)
        invariant cache == Apply(old(cache), Decoded(done, decode))
        decreases |rest|
      {
        var i := IndexOf(rest, '\n');
        if i >= LINE_LIMIT {
          break;
        }
        ReceiveFirst(rest);
        var line := DropCR(rest[..i]);
        rest := AfterLine(rest);
        StoreLine(line);
        StoreMore(old(cache), done, PayloadOf(line), Received(rest), decode);
        done := done + PayloadOf(line);
      }
      assert done + [] == done;
    }

    /** The reconnect loop until the provider is closed: the delays it sleeps, and the cache it leaves. */
    method StreamUpdates(connections: seq<Connection>) returns (sleeps: seq<nat>)
      modifies this
      ensures sleeps == Delays(connections)
      ensures cache == Filled(old(cache), connections, decode)
    {
      var backoff := 1;
      sleeps := [];
      for k := 0 to |connections|
        invariant backoff == Min(Pow2(Refusals(connections[..k])), MAX_BACKOFF)
        invariant sleeps == Delays(connections[..k])
        invariant cache == Filled(old(cache), connections[..k], decode)
      {
        assert connections[..k + 1][..k] == connections[..k];
        match connections[k] {
          case BadRequest =>
            sleeps := sleeps + [backoff];
          case Refused =>
            sleeps := sleeps + [backoff];
            backoff := if 2 * backoff < MAX_BACKOFF then 2 * backoff else MAX_BACKOFF;
          case Streamed(input) =>
            backoff := 1;
            ReadStream(input);
        }
      }
      assert connections[..|connections|] == connections;
    }
  }

  lemma {:induction false} DecodedConcat(a: seq<string>, b: seq<string>, decode: Decoder)
    ensures Decoded(a + b, decode) == Decoded(a, decode) + Decoded(b, decode)
  {
    if a == [] {
      assert a + b == b;
    } else {
      DecodedConcat(a[1..], b, decode);
      assert (a + b)[1..] == a[1..] + b;
      Regroup(FlagIn(a[0], decode), Decoded(a[1..], decode), Decoded(b, decode));
    }
  }

  lemma {:induction false} ApplyConcat(cache: map<string, Flag>, a: seq<Flag>, b: seq<Flag>)
    ensures Apply(Apply(cache, a), b) == Apply(cache, a + b)
  {
    if b == [] {
      assert a + b == a;
    } else {
      ApplyConcat(cache, a, b[..|b| - 1]);
      assert (a + b)[..|a + b| - 1] == a + b[..|b| - 1];
    }
  }

  /** Storing what one more line carries. */
  lemma StoreMore(cache: map<string, Flag>, done: seq<string>, line: seq<string>, rest: seq<string>, decode: Decoder)
    ensures Apply(Apply(cache, Decoded(done, decode)), Decoded(line, decode))
      == Apply(cache, Decoded(done + line, decode))
    ensures done + (line + rest) == done + line + rest
  {
    Regroup(done, line, rest);
    DecodedConcat(done, line, decode);
    ApplyConcat(cache, Decoded(done, decode), Decoded(line, decode));
  }

  // ---- From bytes to flags ----------------------------------------------------------------

  /** The server frames the resolved flag, with its description; the client decodes its own view of it. */
  type Encoder = ResolvedFlag -> string

  function Encoded(flags: seq<ResolvedFlag>, encode: Encoder): (r: seq<string>)
    ensures |r| == |flags| && forall i | 0 <= i < |r| :: r[i] == encode(flags[i])
  {
    seq(|flags|, i requires 0 <= i < |flags| => encode(flags[i]))
  }

  /** What the stream asks of JSON, for the flags that are sent: each reads back, stands on one line, and does not
      decode when it is truncated. */
  ghost predicate Codec(flags: seq<ResolvedFlag>, encode: Encoder, decode: Decoder) {
    && (forall f | f in flags :: decode(encode(f)) == Some(Protocol.View(f)) && OneLine(encode(f)))
    && (forall f, k | f in flags && 0 <= k < |encode(f)| :: decode(encode(f)[..k]) == None)
  }

  lemma CodecOfPrefix(flags: seq<ResolvedFlag>, n: nat, encode: Encoder, decode: Decoder)
    requires Codec(flags, encode, decode) && n <= |flags|
    ensures Codec(flags[..n], encode, decode)
  {
    assert forall f | f in flags[..n] :: f in flags;
  }

  lemma EncodedHead(flags: seq<ResolvedFlag>, encode: Encoder)
    requires flags != []
    ensures Encoded(flags, encode) == [encode(flags[0])] + Encoded(flags[1..], encode)
    ensures Views(flags) == [Protocol.View(flags[0])] + Views(flags[1..])
  {
  }

  lemma DecodedHead(p: string, rest: seq<string>, decode: Decoder)
    ensures Decoded([p] + rest, decode) == FlagIn(p, decode) + Decoded(rest, decode)
  {
    assert ([p] + rest)[1..] == rest;
  }

  lemma {:induction false} DecodedEncoded(flags: seq<ResolvedFlag>, encode: Encoder, decode: Decoder)
    requires Codec(flags, encode, decode)
    ensures Decoded(Encoded(flags, encode), decode) == Views(flags)
  {
    if flags != [] {
      assert forall f | f in flags[1..] :: f in flags;
      DecodedEncoded(flags[1..], encode, decode);
      EncodedHead(flags, encode);
      DecodedHead(encode(flags[0]), Encoded(flags[1..], encode), decode);
      assert flags[0] in flags;
    }
  }

  /** A truncated payload either is whole after all, or decodes to nothing. */
  lemma TruncatedPayload(flags: seq<ResolvedFlag>, i: nat, p: string, encode: Encoder, decode: Decoder)
    requires Codec(flags, encode, decode) && i < |flags| && IsPrefix(p, encode(flags[i]))
    ensures Decoded([p], decode) == if p == encode(flags[i]) then [Protocol.View(flags[i])] else []
  {
    assert Decoded([p], decode) == FlagIn(p, decode) + [];
    if |p| == |encode(flags[i])| {
      assert p == encode(flags[i]);
    } else {
      assert p == encode(flags[i])[..|p|];
    }
  }

  lemma OnePayloadMore(flags: seq<ResolvedFlag>, whole: nat, last: string, encode: Encoder, decode: Decoder)
    requires Codec(flags, encode, decode) && whole < |flags| && IsPrefix(last, encode(flags[whole]))
    ensures Decoded(Encoded(flags[..whole], encode) + [last], decode)
      == if last == encode(flags[whole]) then Views(flags[..whole + 1]) else Views(flags[..whole])
  {
    CodecOfPrefix(flags, whole, encode, decode);
    DecodedEncoded(flags[..whole], encode, decode);
    DecodedConcat(Encoded(flags[..whole], encode), [last], decode);
    TruncatedPayload(flags, whole, last, encode, decode);
    TakeOneMore(flags, whole);
    assert Views(flags[..whole + 1]) == Views(flags[..whole]) + [Protocol.View(flags[whole])];
    assert Views(flags[..whole]) + [] == Views(flags[..whole]);
  }

  /** How many flags come before the first that is too long for a line. */
  function FittingFlags(flags: seq<ResolvedFlag>, encode: Encoder): (n: nat)
    ensures n <= |flags|
  {
    |FittingPrefix(Encoded(flags, encode))|
  }

  lemma EncodedPrefix(flags: seq<ResolvedFlag>, n: nat, encode: Encoder)
    requires n <= |flags|
    ensures Encoded(flags, encode)[..n] == Encoded(flags[..n], encode)
  {
  }

  lemma OneMoreFits(flags: seq<ResolvedFlag>, encode: Encoder, whole: nat)
    requires whole <= FittingFlags(flags, encode) && whole < |flags| && Fits(encode(flags[whole]))
    ensures whole < FittingFlags(flags, encode)
  {
    assert Encoded(flags, encode)[whole] == encode(flags[whole]);
  }

  /** An answer that ends in a truncation of the next payload. */
  lemma CutInside(flags: seq<ResolvedFlag>, encode: Encoder, decode: Decoder, whole: nat, last: string) returns (n: nat)
    requires Codec(flags, encode, decode) && whole < |flags| && whole <= FittingFlags(flags, encode)
    requires IsPrefix(last, encode(flags[whole])) && Fits(last)
    ensures n <= FittingFlags(flags, encode)
    ensures Decoded(Encoded(flags[..whole], encode) + [last], decode) == Views(flags[..n])
  {
    OnePayloadMore(flags, whole, last, encode, decode);
    n := whole;
    if last == encode(flags[whole]) {
      OneMoreFits(flags, encode, whole);
      n := whole + 1;
    }
  }

  lemma CutDecodes(flags: seq<ResolvedFlag>, encode: Encoder, decode: Decoder, r: seq<string>, whole: nat)
    returns (n: nat)
    requires Codec(flags, encode, decode) && CutShort(r, Encoded(flags, encode), whole)
    requires whole <= FittingFlags(flags, encode)
    ensures n <= FittingFlags(flags, encode) && Decoded(r, decode) == Views(flags[..n])
  {
    EncodedPrefix(flags, whole, encode);
    if r == Encoded(flags[..whole], encode) {
      n := whole;
      CodecOfPrefix(flags, whole, encode, decode);
      DecodedEncoded(flags[..whole], encode, decode);
    } else {
      assert r == r[..whole] + [r[whole]];
      n := CutInside(flags, encode, decode, whole, r[whole]);
    }
  }

  lemma WholeStreamDecodes(flags: seq<ResolvedFlag>, encode: Encoder, decode: Decoder)
    requires Codec(flags, encode, decode)
    ensures Decoded(Received(Stream(Encoded(flags, encode))), decode)
      == Views(flags[..FittingFlags(flags, encode)])
  {
    var n := FittingFlags(flags, encode);
    assert forall i | 0 <= i < |flags| :: flags[i] in flags;
    RoundTrip(Encoded(flags, encode));
    assert FittingPrefix(Encoded(flags, encode)) == Encoded(flags[..n], encode);
    CodecOfPrefix(flags, n, encode, decode);
    DecodedEncoded(flags[..n], encode, decode);
  }

  /** A connection that is cut at any byte fills the cache exactly as if a whole number of flags had been read, and an
      uncut one as if all had been, up to the first flag that is too long for a line: the protocol's view of the wire as
      a sequence of flags is faithful to the bytes. */
  lemma CutFillsWholeFlags(flags: seq<ResolvedFlag>, encode: Encoder, decode: Decoder, k: nat) returns (n: nat)
    requires Codec(flags, encode, decode) && k <= |Stream(Encoded(flags, encode))|
    ensures n <= FittingFlags(flags, encode)
    ensures k == |Stream(Encoded(flags, encode))| ==> n == FittingFlags(flags, encode)
    ensures Decoded(Received(Stream(Encoded(flags, encode))[..k]), decode) == Views(flags[..n])
  {
    var payloads := Encoded(flags, encode);
    if k == |Stream(payloads)| {
      n := FittingFlags(flags, encode);
      assert Stream(payloads)[..k] == Stream(payloads);
      WholeStreamDecodes(flags, encode, decode);
    } else {
      assert forall i | 0 <= i < |flags| :: flags[i] in flags;
      var whole := CutStream(payloads, k);
      n := CutDecodes(flags, encode, decode, Received(Stream(payloads)[..k]), whole);
    }
  }

  // ---- The conditions on JSON can be met --------------------------------------------------

  function Ones(n: nat): (r: string)
    ensures |r| == n && forall i | 0 <= i < n :: r[i] == '1'
  {
    seq(n, _ => '1')
  }

  /** Position of the first occurrence, or the length when there is none. */
  function Position(flags: seq<ResolvedFlag>, f: ResolvedFlag): (i: nat)
    ensures i <= |flags| && (i < |flags| ==> flags[i] == f) && (f in flags ==> i < |flags|)
  {
    if flags == [] || flags[0] == f then 0 else 1 + Position(flags[1..], f)
  }

  /** A toy object: the flag's position in unary, between braces. */
  function Numbered(flags: seq<ResolvedFlag>): Encoder {
    (f: ResolvedFlag) => "{" + Ones(Position(flags, f)) + "}"
  }

  function ReadNumbered(flags: seq<ResolvedFlag>): Decoder {
    (s: string) =>
      if 2 <= |s| < |flags| + 2 && s == "{" + Ones(|s| - 2) + "}" then Some(Protocol.View(flags[|s| - 2])) else None
  }

  lemma NumberedOneLine(n: nat)
    ensures OneLine("{" + Ones(n) + "}")
  {
    var s := "{" + Ones(n) + "}";
    assert s[|s| - 1] == '}';
  }

  lemma NumberedReadsBack(flags: seq<ResolvedFlag>, f: ResolvedFlag)
    requires f in flags
    ensures ReadNumbered(flags)(Numbered(flags)(f)) == Some(Protocol.View(f)) && OneLine(Numbered(flags)(f))
  {
    NumberedOneLine(Position(flags, f));
    assert |Numbered(flags)(f)| == Position(flags, f) + 2;
  }

  lemma TruncatedNumberFails(flags: seq<ResolvedFlag>, f: ResolvedFlag, k: nat)
    requires k < |Numbered(flags)(f)|
    ensures ReadNumbered(flags)(Numbered(flags)(f)[..k]) == None
  {
    var s := Numbered(flags)(f)[..k];
    assert k > 1 ==> s[k - 1] == '1' && ("{" + Ones(k - 2) + "}")[k - 1] == '}';
  }

  /** For any flags there are an encoder and a decoder as asked for, and with them up to 65000 flags all fit. */
  lemma CodecExists(flags: seq<ResolvedFlag>)
    ensures Codec(flags, Numbered(flags), ReadNumbered(flags))
    ensures |flags| <= 65000 ==> FittingFlags(flags, Numbered(flags)) == |flags|
  {
    forall f | f in flags
      ensures ReadNumbered(flags)(Numbered(flags)(f)) == Some(Protocol.View(f)) && OneLine(Numbered(flags)(f))
    {
      NumberedReadsBack(flags, f);
    }
    forall f, k | f in flags && 0 <= k < |Numbered(flags)(f)|
      ensures ReadNumbered(flags)(Numbered(flags)(f)[..k]) == None
    {
      TruncatedNumberFails(flags, f, k);
    }
    if |flags| <= 65000 {
      forall i | 0 <= i < |flags| ensures Fits(Encoded(flags, Numbered(flags))[i]) {
        assert flags[i] in flags && |Numbered(flags)(flags[i])| == Position(flags, flags[i]) + 2;
      }
    }
  }

  function Reads(n: nat): (r: seq<Protocol.Event>)
    ensures |r| == n && forall i | 0 <= i < n :: r[i] == Protocol.Read
  {
    seq(n, _ => Protocol.Read)
  }

  /** In the protocol, reading the whole wire is what the line loop does to the cache. */
  lemma {:induction false} ReadsApply(s: Protocol.System)
    ensures Protocol.ValidRun(s, Reads(|s.client.wire|))
    ensures Protocol.Run(s, Reads(|s.client.wire|)).client
      == s.client.(cache := Apply(s.client.cache, s.client.wire), wire := [])
    decreases |s.client.wire|
  {
    var wire := s.client.wire;
    if wire != [] {
      var t := Protocol.Step(s, Protocol.Read);
      ReadsApply(t);
      assert Reads(|wire|)[0] == Protocol.Read && Reads(|wire|)[1..] == Reads(|t.client.wire|);
      ReadFirst(s.client.cache, wire);
    }
  }

  // ---- The reconnect loop, turn by turn ---------------------------------------------------

  lemma DelayIs(turns: seq<Connection>, next: Connection)
    requires !next.Streamed?
    ensures Delays(turns + [next]) == Delays(turns) + [Min(Pow2(Refusals(turns)), MAX_BACKOFF)]
  {
    assert (turns + [next])[..|turns|] == turns;
  }

  lemma RefusalsAre(turns: seq<Connection>, last: Connection)
    ensures Refusals(turns + [last])
      == match last case BadRequest => Refusals(turns) case Refused => Refusals(turns) + 1 case Streamed(_) => 0
  {
    assert (turns + [last])[..|turns|] == turns;
  }

  /** The first wait takes a second. */
  lemma FirstDelay(next: Connection)
    requires !next.Streamed?
    ensures Delays([next]) == [1]
  {
    assert [next][..0] == [];
  }

  /** A stream adds no wait, and the first wait after it takes a second again. */
  lemma DelayAfterStream(turns: seq<Connection>, stream: Connection, next: Connection)
    requires stream.Streamed? && !next.Streamed?
    ensures Delays(turns + [stream]) == Delays(turns)
    ensures Delays(turns + [stream] + [next]) == Delays(turns) + [1]
  {
    assert (turns + [stream])[..|turns|] == turns;
    RefusalsAre(turns, stream);
    DelayIs(turns + [stream], next);
  }

  /** A refusal doubles the wait, up to 30 seconds, and a request that could not be built keeps it. */
  lemma NextDelay(turns: seq<Connection>, last: Connection, next: Connection)
    requires !last.Streamed? && !next.Streamed?
    ensures exists d: nat ::
      && Delays(turns + [last]) == Delays(turns) + [d]
      && Delays(turns + [last] + [next])
         == Delays(turns) + [d] + [if last == BadRequest then d else if 2 * d < 30 then 2 * d else 30]
  {
    DelayIs(turns, last);
    RefusalsAre(turns, last);
    DelayIs(turns + [last], next);
  }

  // ---- What the connections fill in -------------------------------------------------------

  /** A connection that brings the frames of some flags, cut anywhere, stores a whole number of them; one that is not
      cut stores all, up to the first that is too long for a line. A turn without stream stores nothing. */
  lemma ConnectionFills(
      cache: map<string, Flag>, turns: seq<Connection>, flags: seq<ResolvedFlag>, encode: Encoder, decode: Decoder,
      k: nat)
    returns (n: nat)
    requires Codec(flags, encode, decode) && k <= |Stream(Encoded(flags, encode))|
    ensures n <= FittingFlags(flags, encode)
    ensures k == |Stream(Encoded(flags, encode))| ==> n == FittingFlags(flags, encode)
    ensures Filled(cache, turns + [Streamed(Stream(Encoded(flags, encode))[..k])], decode)
      == Apply(Filled(cache, turns, decode), Views(flags[..n]))
    ensures Filled(cache, turns + [Refused], decode) == Filled(cache, turns, decode)
    ensures Filled(cache, turns + [BadRequest], decode) == Filled(cache, turns, decode)
  {
    n := CutFillsWholeFlags(flags, encode, decode, k);
    var input := Stream(Encoded(flags, encode))[..k];
    assert (turns + [Streamed(input)])[..|turns|] == turns;
    assert (turns + [Refused])[..|turns|] == turns && (turns + [BadRequest])[..|turns|] == turns;
  }

  /** A stream that is cut leaves the client without stream, and reading on brings what had arrived into the cache. */
  lemma CutThenRead(s: Protocol.System, delivered: nat)
    requires Protocol.Possible(s, Protocol.Cut(delivered))
    ensures var t := Protocol.Step(s, Protocol.Cut(delivered));
      && Protocol.ValidRun(t, Reads(delivered))
      && Protocol.Run(t, Reads(delivered)).client
         == s.client.(cache := Apply(s.client.cache, s.client.wire[..delivered]), wire := [], stream := None)
  {
    ReadsApply(Protocol.Step(s, Protocol.Cut(delivered)));
  }
}
