/** Round trips of every message, and what decoding concatenated encodings means. */
module MessageLaws {
  import opened Outcomes
  import opened Bytes
  import opened Varints
  import opened Wire
  import opened Messages

  /** A later value of an optional field replaces an earlier one. */
  function Later<T>(first: Option<T>, second: Option<T>): Option<T> {
    if second.Some? then second else first
  }

  lemma FoldOne<M>(take: (M, Field) -> Result<M, ProtoError>, m: M, item: Item)
    ensures Fold(take, m, FieldsOf([item])) == take(m, FieldOf(item))
  {
    assert FieldsOf([item]) == [FieldOf(item)] + FieldsOf([item][1..]);
    assert FieldsOf([item])[1..] == [];
    assert take(m, FieldOf(item)).Ok? ==> Fold(take, take(m, FieldOf(item)).value, []) == take(m, FieldOf(item));
  }

  lemma FoldThen<M>(take: (M, Field) -> Result<M, ProtoError>, m: M, item: Item, n: M, rest: seq<Item>)
    requires take(m, FieldOf(item)) == Ok(n)
    ensures Fold(take, m, FieldsOf([item] + rest)) == Fold(take, n, FieldsOf(rest))
  {
    FoldOne(take, m, item);
    FoldItems(take, m, [item], n, rest);
  }

  /** Messages each taken to the next by one field. */
  lemma {:induction false} FoldChain<M>(take: (M, Field) -> Result<M, ProtoError>, ms: seq<M>, items: seq<Item>)
    requires |ms| == |items| + 1
    requires forall i :: 0 <= i < |items| ==> take(ms[i], FieldOf(items[i])) == Ok(ms[i + 1])
    ensures Fold(take, ms[0], FieldsOf(items)) == Ok(ms[|items|])
    decreases |items|
  {
    if items != [] {
      assert items == [items[0]] + items[1..];
      FoldThen(take, ms[0], items[0], ms[1], items[1..]);
      forall i | 0 <= i < |items[1..]|
        ensures take(ms[1..][i], FieldOf(items[1..][i])) == Ok(ms[1..][i + 1])
      {
        assert take(ms[i + 1], FieldOf(items[i + 1])) == Ok(ms[i + 2]);
      }
      FoldChain(take, ms[1..], items[1..]);
    }
  }

  /** An optional bytes field: absent, it changes nothing; present, it is taken. */
  lemma FoldOptBytes<M>(take: (M, Field) -> Result<M, ProtoError>, m: M, number: nat, o: Option<Blob>)
    ensures Fold(take, m, FieldsOf(OptBytes(number, o)))
            == if o.Some? then take(m, Field(number, 2, o.value)) else Ok(m)
  {
    if o.Some? {
      FoldOne(take, m, Bytes(number, o.value));
    }
  }

  lemma FoldOptInt32<M>(take: (M, Field) -> Result<M, ProtoError>, m: M, number: nat, o: Option<i32>)
    ensures Fold(take, m, FieldsOf(OptInt32(number, o)))
            == if o.Some? then take(m, FieldOf(Number(number, AsU64(o.value)))) else Ok(m)
    ensures o.Some? ==>
            AsInt32(FieldOf(Number(number, AsU64(o.value)))) == o
              && AsVarint(FieldOf(Number(number, AsU64(o.value)))) == Some(AsU64(o.value))
  {
    if o.Some? {
      FoldOne(take, m, Number(number, AsU64(o.value)));
      Int32ReadsBack(number, o.value);
      NumberReadsBack(number, AsU64(o.value));
    }
  }

  /** From "decoding `items(b)` over `m` merges `b` into `m`" to the two laws: the round trip, and last one wins. */
  lemma ConcatenationDecodes<M>(take: (M, Field) -> Result<M, ProtoError>, empty: M, a: seq<Item>, m: M, b: seq<Item>,
                                n: M)
    requires Numbered(a) && Numbered(b)
    requires Fold(take, empty, FieldsOf(a)) == Ok(m) && Fold(take, m, FieldsOf(b)) == Ok(n)
    ensures Decode(take, empty, EncodeItems(a)) == Ok(m)
    ensures Decode(take, empty, EncodeItems(a) + EncodeItems(b)) == Ok(n)
  {
    DecodeItems(take, empty, a);
    EncodeItemsAppend(a, b);
    assert forall i :: 0 <= i < |a + b| ==> (a + b)[i].number == if i < |a| then a[i].number else b[i - |a|].number;
    DecodeItems(take, empty, a + b);
    FoldItems(take, empty, a, m, b);
  }

  // ---------------------------------------------------------------- flat messages

  function MergeRequest(m: ConnectRequest, n: ConnectRequest): ConnectRequest {
    ConnectRequest(Later(m.clientId, n.clientId), Later(m.version, n.version))
  }

  lemma FoldRequest(m: ConnectRequest, n: ConnectRequest)
    ensures Fold(TakeConnectRequest, m, FieldsOf(ConnectRequestItems(n))) == Ok(MergeRequest(m, n))
  {
    var m1 := m.(clientId := Later(m.clientId, n.clientId));
    FoldOptBytes(TakeConnectRequest, m, 1, n.clientId);
    FoldOptInt32(TakeConnectRequest, m1, 2, n.version);
    FoldItems(TakeConnectRequest, m, OptBytes(1, n.clientId), m1, OptInt32(2, n.version));
  }

  lemma ConnectRequestRoundTrip(m: ConnectRequest, n: ConnectRequest)
    ensures Decode(TakeConnectRequest, NO_REQUEST, EncodeItems(ConnectRequestItems(m))) == Ok(m)
    ensures Decode(TakeConnectRequest, NO_REQUEST,
                   EncodeItems(ConnectRequestItems(m)) + EncodeItems(ConnectRequestItems(n)))
         == Ok(MergeRequest(m, n))
  {
    FoldRequest(NO_REQUEST, m);
    FoldRequest(m, n);
    ConcatenationDecodes(TakeConnectRequest, NO_REQUEST, ConnectRequestItems(m), m, ConnectRequestItems(n),
                         MergeRequest(m, n));
  }

  function MergeResponse(m: ConnectResponse, n: ConnectResponse): ConnectResponse {
    ConnectResponse(Later(m.status, n.status), Later(m.error, n.error))
  }

  lemma StatusReadsBack(s: ConnectStatus)
    ensures FromI32(AsI32(AsU64(StatusCode(s)))) == Some(s)
  {
  }

  lemma FoldResponse(m: ConnectResponse, n: ConnectResponse)
    ensures Fold(TakeConnectResponse, m, FieldsOf(ConnectResponseItems(n))) == Ok(MergeResponse(m, n))
  {
    var code := match n.status case Some(s) => Some(StatusCode(s)) case None => None;
    var m1 := m.(status := Later(m.status, n.status));
    FoldOptInt32(TakeConnectResponse, m, 1, code);
    if n.status.Some? {
      StatusReadsBack(n.status.value);
    }
    FoldOptBytes(TakeConnectResponse, m1, 2, n.error);
    FoldItems(TakeConnectResponse, m, OptInt32(1, code), m1, OptBytes(2, n.error));
  }

  lemma ConnectResponseRoundTrip(m: ConnectResponse, n: ConnectResponse)
    ensures Decode(TakeConnectResponse, NO_RESPONSE, EncodeItems(ConnectResponseItems(m))) == Ok(m)
    ensures Decode(TakeConnectResponse, NO_RESPONSE,
                   EncodeItems(ConnectResponseItems(m)) + EncodeItems(ConnectResponseItems(n)))
         == Ok(MergeResponse(m, n))
  {
    FoldResponse(NO_RESPONSE, m);
    FoldResponse(m, n);
    ConcatenationDecodes(TakeConnectResponse, NO_RESPONSE, ConnectResponseItems(m), m, ConnectResponseItems(n),
                         MergeResponse(m, n));
  }

  lemma FoldHeader(m: SequenceHeader, n: SequenceHeader)
    ensures Fold(TakeSequenceHeader, m, FieldsOf(SequenceHeaderItems(n)))
            == Ok(SequenceHeader(Later(m.sequenceNumber, n.sequenceNumber)))
  {
    FoldOptInt32(TakeSequenceHeader, m, 1, n.sequenceNumber);
  }

  lemma SequenceHeaderRoundTrip(m: SequenceHeader, n: SequenceHeader)
    ensures Decode(TakeSequenceHeader, NO_HEADER, EncodeItems(SequenceHeaderItems(m))) == Ok(m)
    ensures Decode(TakeSequenceHeader, NO_HEADER,
                   EncodeItems(SequenceHeaderItems(m)) + EncodeItems(SequenceHeaderItems(n)))
         == Ok(SequenceHeader(Later(m.sequenceNumber, n.sequenceNumber)))
  {
    FoldHeader(NO_HEADER, m);
    FoldHeader(m, n);
    ConcatenationDecodes(TakeSequenceHeader, NO_HEADER, SequenceHeaderItems(m), m, SequenceHeaderItems(n),
                         SequenceHeader(Later(m.sequenceNumber, n.sequenceNumber)));
  }

  lemma FoldTerminalBuffer(m: TerminalBuffer, n: TerminalBuffer)
    ensures Fold(TakeTerminalBuffer, m, FieldsOf(TerminalBufferItems(n)))
            == Ok(TerminalBuffer(Later(m.buffer, n.buffer)))
  {
    FoldOptBytes(TakeTerminalBuffer, m, 1, n.buffer);
  }

  lemma TerminalBufferRoundTrip(m: TerminalBuffer, n: TerminalBuffer)
    ensures Decode(TakeTerminalBuffer, NO_TERMINAL_BUFFER, EncodeItems(TerminalBufferItems(m))) == Ok(m)
    ensures Decode(TakeTerminalBuffer, NO_TERMINAL_BUFFER,
                   EncodeItems(TerminalBufferItems(m)) + EncodeItems(TerminalBufferItems(n)))
         == Ok(TerminalBuffer(Later(m.buffer, n.buffer)))
  {
    FoldTerminalBuffer(NO_TERMINAL_BUFFER, m);
    FoldTerminalBuffer(m, n);
    ConcatenationDecodes(TakeTerminalBuffer, NO_TERMINAL_BUFFER, TerminalBufferItems(m), m, TerminalBufferItems(n),
                         TerminalBuffer(Later(m.buffer, n.buffer)));
  }

  lemma FoldInitialResponse(m: InitialResponse, n: InitialResponse)
    ensures Fold(TakeInitialResponse, m, FieldsOf(InitialResponseItems(n)))
            == Ok(InitialResponse(Later(m.error, n.error)))
  {
    FoldOptBytes(TakeInitialResponse, m, 1, n.error);
  }

  lemma InitialResponseRoundTrip(m: InitialResponse, n: InitialResponse)
    ensures Decode(TakeInitialResponse, NO_INITIAL_RESPONSE, EncodeItems(InitialResponseItems(m))) == Ok(m)
    ensures Decode(TakeInitialResponse, NO_INITIAL_RESPONSE,
                   EncodeItems(InitialResponseItems(m)) + EncodeItems(InitialResponseItems(n)))
         == Ok(InitialResponse(Later(m.error, n.error)))
  {
    FoldInitialResponse(NO_INITIAL_RESPONSE, m);
    FoldInitialResponse(m, n);
    ConcatenationDecodes(TakeInitialResponse, NO_INITIAL_RESPONSE, InitialResponseItems(m), m, InitialResponseItems(n),
                         InitialResponse(Later(m.error, n.error)));
  }

  function MergeInfo(m: TerminalInfo, n: TerminalInfo): TerminalInfo {
    TerminalInfo(Later(m.id, n.id), Later(m.row, n.row), Later(m.column, n.column), Later(m.width, n.width),
                 Later(m.height, n.height))
  }

  lemma FoldInfo(m: TerminalInfo, n: TerminalInfo)
    ensures Fold(TakeTerminalInfo, m, FieldsOf(TerminalInfoItems(n))) == Ok(MergeInfo(m, n))
  {
    var h := OptInt32(5, n.height);
    var w := OptInt32(4, n.width) + h;
    var c := OptInt32(3, n.column) + w;
    var m1 := m.(id := Later(m.id, n.id));
    var m2 := m1.(row := Later(m.row, n.row));
    var m3 := m2.(column := Later(m.column, n.column));
    var m4 := m3.(width := Later(m.width, n.width));
    FoldOptBytes(TakeTerminalInfo, m, 1, n.id);
    FoldOptInt32(TakeTerminalInfo, m1, 2, n.row);
    FoldOptInt32(TakeTerminalInfo, m2, 3, n.column);
    FoldOptInt32(TakeTerminalInfo, m3, 4, n.width);
    FoldOptInt32(TakeTerminalInfo, m4, 5, n.height);
    FoldItems(TakeTerminalInfo, m3, OptInt32(4, n.width), m4, h);
    FoldItems(TakeTerminalInfo, m2, OptInt32(3, n.column), m3, w);
    FoldItems(TakeTerminalInfo, m1, OptInt32(2, n.row), m2, c);
    FoldItems(TakeTerminalInfo, m, OptBytes(1, n.id), m1, OptInt32(2, n.row) + c);
  }

  lemma NumberedAppend(a: seq<Item>, b: seq<Item>)
    requires Numbered(a) && Numbered(b)
    ensures Numbered(a + b)
  {
  }

  lemma InfoNumbered(m: TerminalInfo)
    ensures Numbered(TerminalInfoItems(m))
  {
    NumberedAppend(OptInt32(4, m.width), OptInt32(5, m.height));
    NumberedAppend(OptInt32(3, m.column), OptInt32(4, m.width) + OptInt32(5, m.height));
    NumberedAppend(OptInt32(2, m.row), OptInt32(3, m.column) + (OptInt32(4, m.width) + OptInt32(5, m.height)));
    NumberedAppend(OptBytes(1, m.id),
                   OptInt32(2, m.row) + (OptInt32(3, m.column) + (OptInt32(4, m.width) + OptInt32(5, m.height))));
  }

  lemma TerminalInfoRoundTrip(m: TerminalInfo, n: TerminalInfo)
    ensures Decode(TakeTerminalInfo, NO_TERMINAL_INFO, EncodeItems(TerminalInfoItems(m))) == Ok(m)
    ensures Decode(TakeTerminalInfo, NO_TERMINAL_INFO,
                   EncodeItems(TerminalInfoItems(m)) + EncodeItems(TerminalInfoItems(n)))
         == Ok(MergeInfo(m, n))
  {
    FoldInfo(NO_TERMINAL_INFO, m);
    FoldInfo(m, n);
    InfoNumbered(m);
    InfoNumbered(n);
    assert MergeInfo(NO_TERMINAL_INFO, m) == m;
    ConcatenationDecodes(TakeTerminalInfo, NO_TERMINAL_INFO, TerminalInfoItems(m), m, TerminalInfoItems(n),
                         MergeInfo(m, n));
  }

  // ---------------------------------------------------------------- catch-up buffers

  lemma FoldCatchup(m: CatchupBuffer, buffer: seq<Blob>)
    ensures Fold(TakeCatchup, m, FieldsOf(CatchupItems(buffer))) == Ok(CatchupBuffer(m.buffer + buffer))
  {
    var ms := seq(|buffer| + 1, i requires 0 <= i <= |buffer| => CatchupBuffer(m.buffer + buffer[..i]));
    forall i | 0 <= i < |buffer|
      ensures TakeCatchup(ms[i], FieldOf(CatchupItems(buffer)[i])) == Ok(ms[i + 1])
    {
      assert m.buffer + buffer[..i] + [buffer[i]] == m.buffer + buffer[..i + 1];
    }
    FoldChain(TakeCatchup, ms, CatchupItems(buffer));
    assert m.buffer + buffer[..0] == m.buffer && buffer[..|buffer|] == buffer;
  }

  /** Any list of entries comes back; encodings one after the other decode to the lists one after the other. */
  lemma CatchupRoundTrip(a: seq<Blob>, b: seq<Blob>)
    ensures Decode(TakeCatchup, NO_CATCHUP, EncodeItems(CatchupItems(a))) == Ok(CatchupBuffer(a))
    ensures Decode(TakeCatchup, NO_CATCHUP, EncodeItems(CatchupItems(a)) + EncodeItems(CatchupItems(b)))
            == Ok(CatchupBuffer(a + b))
  {
    FoldCatchup(NO_CATCHUP, a);
    assert NO_CATCHUP.buffer + a == a;
    FoldCatchup(CatchupBuffer(a), b);
    ConcatenationDecodes(TakeCatchup, NO_CATCHUP, CatchupItems(a), CatchupBuffer(a), CatchupItems(b),
                         CatchupBuffer(a + b));
  }

  // ---------------------------------------------------------------- nested messages

  function MergeEndpoint(m: SocketEndpoint, n: SocketEndpoint): SocketEndpoint {
    SocketEndpoint(Later(m.name, n.name), Later(m.port, n.port))
  }

  lemma FoldEndpoint(m: SocketEndpoint, n: SocketEndpoint)
    ensures Fold(TakeEndpoint, m, FieldsOf(EndpointItems(n))) == Ok(MergeEndpoint(m, n))
  {
    var m1 := m.(name := Later(m.name, n.name));
    FoldOptBytes(TakeEndpoint, m, 1, n.name);
    FoldOptInt32(TakeEndpoint, m1, 2, n.port);
    FoldItems(TakeEndpoint, m, OptBytes(1, n.name), m1, OptInt32(2, n.port));
  }

  lemma EndpointRoundTrip(m: SocketEndpoint, n: SocketEndpoint)
    ensures DecodeEndpoint(EncodeEndpoint(m)) == Ok(m)
    ensures DecodeEndpoint(EncodeEndpoint(m) + EncodeEndpoint(n)) == Ok(MergeEndpoint(m, n))
  {
    FoldEndpoint(NO_ENDPOINT, m);
    FoldEndpoint(m, n);
    ConcatenationDecodes(TakeEndpoint, NO_ENDPOINT, EndpointItems(m), m, EndpointItems(n), MergeEndpoint(m, n));
  }

  /** An embedded message that comes twice is replaced, not merged field by field. */
  function MergeTunnel(m: PortForwardSourceRequest, n: PortForwardSourceRequest): PortForwardSourceRequest {
    PortForwardSourceRequest(Later(m.source, n.source), Later(m.destination, n.destination),
                             Later(m.environmentVariable, n.environmentVariable))
  }

  lemma FoldOptEndpoint(m: PortForwardSourceRequest, number: nat, o: Option<SocketEndpoint>)
    requires EndpointFits(o) && 1 <= number <= 2
    ensures Fold(TakeTunnel, m, FieldsOf(OptEndpoint(number, o)))
         == Ok(if number == 1 then m.(source := Later(m.source, o)) else m.(destination := Later(m.destination, o)))
  {
    if o.Some? {
      EndpointRoundTrip(o.value, o.value);
      FoldOne(TakeTunnel, m, Bytes(number, EncodeEndpoint(o.value)));
    }
  }

  lemma FoldTunnel(m: PortForwardSourceRequest, n: PortForwardSourceRequest)
    requires TunnelOk(n)
    ensures Fold(TakeTunnel, m, FieldsOf(TunnelItems(n))) == Ok(MergeTunnel(m, n))
  {
    var m1 := m.(source := Later(m.source, n.source));
    var m2 := m1.(destination := Later(m.destination, n.destination));
    FoldOptEndpoint(m, 1, n.source);
    FoldOptEndpoint(m1, 2, n.destination);
    FoldOptBytes(TakeTunnel, m2, 3, n.environmentVariable);
    FoldItems(TakeTunnel, m1, OptEndpoint(2, n.destination), m2, OptBytes(3, n.environmentVariable));
    FoldItems(TakeTunnel, m, OptEndpoint(1, n.source), m1,
              OptEndpoint(2, n.destination) + OptBytes(3, n.environmentVariable));
  }

  lemma TunnelRoundTrip(m: PortForwardSourceRequest, n: PortForwardSourceRequest)
    requires TunnelOk(m) && TunnelOk(n)
    ensures DecodeTunnel(EncodeTunnel(m)) == Ok(m)
    ensures DecodeTunnel(EncodeTunnel(m) + EncodeTunnel(n)) == Ok(MergeTunnel(m, n))
  {
    var a, b := TunnelItems(m), TunnelItems(n);
    FoldTunnel(NO_TUNNEL, m);
    FoldTunnel(m, n);
    assert MergeTunnel(NO_TUNNEL, m) == m;
    TunnelNumbered(m);
    TunnelNumbered(n);
    ConcatenationDecodes(TakeTunnel, NO_TUNNEL, a, m, b, MergeTunnel(m, n));
  }

  lemma TunnelNumbered(m: PortForwardSourceRequest)
    requires TunnelOk(m)
    ensures Numbered(TunnelItems(m))
  {
    NumberedAppend(OptEndpoint(2, m.destination), OptBytes(3, m.environmentVariable));
    NumberedAppend(OptEndpoint(1, m.source), OptEndpoint(2, m.destination) + OptBytes(3, m.environmentVariable));
  }

  /** What the Protocol Buffers encoding guide ("Last One Wins") asks of an embedded message that comes twice. */
  function GuideMergeEndpoint(m: Option<SocketEndpoint>, n: Option<SocketEndpoint>): Option<SocketEndpoint> {
    if m.Some? && n.Some? then Some(MergeEndpoint(m.value, n.value)) else Later(m, n)
  }

  function GuideMergeTunnel(m: PortForwardSourceRequest, n: PortForwardSourceRequest): PortForwardSourceRequest {
    PortForwardSourceRequest(GuideMergeEndpoint(m.source, n.source), GuideMergeEndpoint(m.destination, n.destination),
                             Later(m.environmentVariable, n.environmentVariable))
  }

  /** Replacing loses nothing: one of the two is absent, or the later one has every field the earlier one has. */
  predicate Covers(m: Option<SocketEndpoint>, n: Option<SocketEndpoint>) {
    m.Some? && n.Some? ==> (m.value.name.Some? ==> n.value.name.Some?) && (m.value.port.Some? ==> n.value.port.Some?)
  }

  /** The decoder agrees with the guide on two encodings, one after the other, if and only if neither embedded message
      loses a field by being replaced. */
  lemma MergesAsTheGuideExactly(m: PortForwardSourceRequest, n: PortForwardSourceRequest)
    requires TunnelOk(m) && TunnelOk(n)
    ensures DecodeTunnel(EncodeTunnel(m) + EncodeTunnel(n)) == Ok(GuideMergeTunnel(m, n))
            <==> Covers(m.source, n.source) && Covers(m.destination, n.destination)
  {
    TunnelRoundTrip(m, n);
  }

  /** A name in the first encoding and a port in the second: the guide keeps both, the decoder drops the name. */
  lemma ReplacingLosesTheName(name: Text, port: i32)
    requires |EncodeEndpoint(SocketEndpoint(Some(name), None))| < U64
             && |EncodeEndpoint(SocketEndpoint(None, Some(port)))| < U64
    ensures var m := PortForwardSourceRequest(Some(SocketEndpoint(Some(name), None)), None, None);
            var n := PortForwardSourceRequest(Some(SocketEndpoint(None, Some(port))), None, None);
            && DecodeTunnel(EncodeTunnel(m) + EncodeTunnel(n)) == Ok(n)
            && GuideMergeTunnel(m, n)
               == PortForwardSourceRequest(Some(SocketEndpoint(Some(name), Some(port))), None, None)
  {
    TunnelRoundTrip(PortForwardSourceRequest(Some(SocketEndpoint(Some(name), None)), None, None),
                    PortForwardSourceRequest(Some(SocketEndpoint(None, Some(port))), None, None));
  }

  lemma TakesTunnel(m: InitialPayload, t: PortForwardSourceRequest)
    requires TunnelFits(t)
    ensures TakePayload(m, FieldOf(Bytes(2, EncodeTunnel(t)))) == Ok(m.(reverseTunnels := m.reverseTunnels + [t]))
  {
    TunnelRoundTrip(t, t);
  }

  function WithTunnels(m: InitialPayload, tunnels: seq<PortForwardSourceRequest>): InitialPayload {
    m.(reverseTunnels := m.reverseTunnels + tunnels)
  }

  lemma TunnelStep(m: InitialPayload, tunnels: seq<PortForwardSourceRequest>, i: nat)
    requires AllFit(tunnels) && i < |tunnels|
    ensures TakePayload(WithTunnels(m, tunnels[..i]), FieldOf(TunnelsItems(tunnels)[i]))
            == Ok(WithTunnels(m, tunnels[..i + 1]))
  {
    var t, before, item := tunnels[i], WithTunnels(m, tunnels[..i]), TunnelsItems(tunnels)[i];
    assert item == Bytes(2, EncodeTunnel(t));
    TakesTunnel(before, t);
    OneMoreTunnel(m, tunnels, i);
    assert TakePayload(before, FieldOf(item)) == Ok(before.(reverseTunnels := before.reverseTunnels + [t]));
  }

  lemma OneMoreTunnel(m: InitialPayload, tunnels: seq<PortForwardSourceRequest>, i: nat)
    requires i < |tunnels|
    ensures var before := WithTunnels(m, tunnels[..i]);
            before.(reverseTunnels := before.reverseTunnels + [tunnels[i]]) == WithTunnels(m, tunnels[..i + 1])
  {
    assert tunnels[..i + 1] == tunnels[..i] + [tunnels[i]];
  }

  lemma FoldTunnels(m: InitialPayload, tunnels: seq<PortForwardSourceRequest>)
    requires AllFit(tunnels)
    ensures Fold(TakePayload, m, FieldsOf(TunnelsItems(tunnels))) == Ok(WithTunnels(m, tunnels))
  {
    var items := TunnelsItems(tunnels);
    var ms := seq(|tunnels| + 1, i requires 0 <= i <= |tunnels| => WithTunnels(m, tunnels[..i]));
    forall i | 0 <= i < |items|
      ensures TakePayload(ms[i], FieldOf(items[i])) == Ok(ms[i + 1])
    {
      TunnelStep(m, tunnels, i);
    }
    FoldChain(TakePayload, ms, items);
    assert tunnels[..|tunnels|] == tunnels;
    assert m.reverseTunnels + tunnels[..0] == m.reverseTunnels;
    assert ms[0] == m && ms[|items|] == WithTunnels(m, tunnels);
  }

  lemma MapEntryRoundTrip(k: Text, v: Text)
    ensures Decode(TakeMapEntry, MapEntry(None, None), EncodeItems(EntryItems(k, v))) == Ok(MapEntry(Some(k), Some(v)))
  {
    var none, key := MapEntry(None, None), MapEntry(Some(k), None);
    FoldOne(TakeMapEntry, none, Bytes(1, k));
    FoldOne(TakeMapEntry, key, Bytes(2, v));
    FoldItems(TakeMapEntry, none, [Bytes(1, k)], key, [Bytes(2, v)]);
    DecodeItems(TakeMapEntry, none, EntryItems(k, v));
  }

  /** The map after inserting the listed keys with their values from `env`. */
  ghost function Inserted(m: map<Text, Text>, env: map<Text, Text>, order: seq<Text>): map<Text, Text>
    requires forall i :: 0 <= i < |order| ==> order[i] in env
    decreases |order|
  {
    if order == [] then m else Inserted(m[order[0] := env[order[0]]], env, order[1..])
  }

  lemma {:induction false} FoldEnvironment(m: InitialPayload, env: map<Text, Text>, order: seq<Text>)
    requires EnvironmentFits(env) && forall i :: 0 <= i < |order| ==> order[i] in env
    ensures Fold(TakePayload, m, FieldsOf(EnvironmentItems(env, order)))
            == Ok(m.(environment := Inserted(m.environment, env, order)))
    decreases |order|
  {
    if order != [] {
      var k := order[0];
      assert EntryFits(k, env[k]);
      var item := Bytes(3, EncodeItems(EntryItems(k, env[k])));
      var m1 := m.(environment := m.environment[k := env[k]]);
      MapEntryRoundTrip(k, env[k]);
      FoldOne(TakePayload, m, item);
      FoldItems(TakePayload, m, [item], m1, EnvironmentItems(env, order[1..]));
      FoldEnvironment(m1, env, order[1..]);
    }
  }

  lemma {:induction false} InsertedIsUnion(m: map<Text, Text>, env: map<Text, Text>, order: seq<Text>)
    requires forall i :: 0 <= i < |order| ==> order[i] in env
    ensures forall k :: k in Inserted(m, env, order) <==> k in m || k in order
    ensures forall k :: k in Inserted(m, env, order) ==>
            Inserted(m, env, order)[k] == if k in order then env[k] else m[k]
    decreases |order|
  {
    if order != [] {
      InsertedIsUnion(m[order[0] := env[order[0]]], env, order[1..]);
      assert forall k :: k in order <==> k == order[0] || k in order[1..];
    }
  }

  lemma FoldJumphost(m: InitialPayload, o: Option<bool>)
    ensures Fold(TakePayload, m, FieldsOf(JumphostItems(o)))
            == Ok(if o == Some(true) then m.(jumphost := Some(true)) else m)
  {
    if o == Some(true) {
      NumberReadsBack(1, 1);
      FoldOne(TakePayload, m, Number(1, 1));
    }
  }

  /** The payload comes back under every iteration order of its map; a false `jumphost` comes back absent. */
  lemma InitialPayloadRoundTrip(m: InitialPayload, order: seq<Text>)
    requires PayloadFits(m) && IterationOrder(m.environment, order)
    ensures Decode(TakePayload, NO_PAYLOAD, EncodeItems(InitialPayloadItems(m, order)))
         == Ok(m.(jumphost := if m.jumphost == Some(true) then Some(true) else None))
  {
    var tunnels, env := TunnelsItems(m.reverseTunnels), EnvironmentItems(m.environment, order);
    NumberedAppend(tunnels, env);
    NumberedAppend(JumphostItems(m.jumphost), tunnels + env);
    DecodeItems(TakePayload, NO_PAYLOAD, InitialPayloadItems(m, order));
    FoldPayload(m, order);
  }

  lemma FoldPayload(m: InitialPayload, order: seq<Text>)
    requires PayloadFits(m) && IterationOrder(m.environment, order)
    ensures Fold(TakePayload, NO_PAYLOAD, FieldsOf(InitialPayloadItems(m, order)))
         == Ok(m.(jumphost := if m.jumphost == Some(true) then Some(true) else None))
  {
    var tunnels, env := TunnelsItems(m.reverseTunnels), EnvironmentItems(m.environment, order);
    var m1 := NO_PAYLOAD.(jumphost := if m.jumphost == Some(true) then Some(true) else None);
    var m2 := m1.(reverseTunnels := m.reverseTunnels);
    FoldJumphost(NO_PAYLOAD, m.jumphost);
    FoldTunnels(m1, m.reverseTunnels);
    assert m1.reverseTunnels + m.reverseTunnels == m.reverseTunnels;
    FoldItems(TakePayload, NO_PAYLOAD, JumphostItems(m.jumphost), m1, tunnels + env);
    FoldItems(TakePayload, m1, tunnels, m2, env);
    FoldWholeEnvironment(m2, m.environment, order);
  }

  lemma FoldWholeEnvironment(m: InitialPayload, env: map<Text, Text>, order: seq<Text>)
    requires EnvironmentFits(env) && IterationOrder(env, order) && m.environment == map[]
    ensures Fold(TakePayload, m, FieldsOf(EnvironmentItems(env, order))) == Ok(m.(environment := env))
  {
    FoldEnvironment(m, env, order);
    InsertedIntoNone(env, order);
  }

  lemma InsertedIntoNone(env: map<Text, Text>, order: seq<Text>)
    requires IterationOrder(env, order)
    ensures Inserted(map[], env, order) == env
  {
    InsertedIsUnion(map[], env, order);
  }
}
