/** The limits and the wire layouts, byte by byte. */
module KnownBytes {
  import opened Outcomes
  import opened Bytes
  import opened Crypto
  import opened Packets
  import opened Writers
  import opened Varints
  import opened Wire
  import opened Messages
  import opened Framing
  import opened Handshake

  lemma Limits()
    ensures MAX_PROTO_BYTES == 134217728 && MAX_BACKUP_BYTES == DISCONNECT_BUFFER_BYTES == 67108864
    ensures KEY_BYTES == 32 && NONCE_BYTES == 24 && MAC_BYTES == 16 && MAX_VARINT_BYTES == 10 && PROTOCOL_VERSION == 6
    ensures InitialNonce(CLIENT_SERVER_NONCE_MSB)[23] == 0 && InitialNonce(SERVER_CLIENT_NONCE_MSB)[23] == 1
  {
  }

  // ---------------------------------------------------------------- packets and frames

  /** A serialized packet: the flag, the header, the payload. A frame: the length, most significant byte first. */
  lemma FrameBytes(p: Packet)
    requires p.Length() < 0x1_0000
    ensures Frame(p.Serialize())
         == [0, 0, p.Length() / 256, p.Length() % 256, if p.encrypted then 1 else 0, p.header] + p.payload
  {
    assert p.Serialize() == [if p.encrypted then 1 else 0, p.header] + p.payload;
  }

  /** Any flag but zero reads as sealed. */
  lemma FlagReads(data: seq<byte>)
    ensures Packet.FromSerialized(data).Ok? <==> |data| >= 2
    ensures |data| >= 2 ==>
              var p := Packet.FromSerialized(data).value;
              (p.encrypted <==> data[0] != 0) && data == [data[0], p.header] + p.payload
  {
  }

  /** The eight length bytes of a message, least significant first. */
  lemma FramedBytes(payload: seq<byte>)
    requires |payload| < 0x100_0000
    ensures Framed(payload) ==
            [|payload| % 256, (|payload| / 256) % 256, |payload| / 0x1_0000, 0, 0, 0, 0, 0] + payload
  {
    var n := |payload|;
    ToLeZero(5);
    assert ToLe(n / 256 / 256 / 256, 5) == ToLe(0, 5) == [0, 0, 0, 0, 0];
    assert ToLe(n / 256 / 256, 6) == [n / 0x1_0000] + ToLe(0, 5);
    assert ToLe(n / 256, 7) == [(n / 256) % 256] + ToLe(n / 256 / 256, 6);
    assert ToLe(n, 8) == [n % 256] + ToLe(n / 256, 7);
  }

  lemma {:induction false} ToLeZero(k: nat)
    ensures ToLe(0, k) == seq(k, _ => 0)
  {
    if k > 0 {
      ToLeZero(k - 1);
    }
  }

  // ---------------------------------------------------------------- fields

  /** A field with a small number and a short value: two bytes of tag and length, or of tag and value. */
  lemma ShortBytes(n: nat, data: Blob)
    requires 1 <= n < 16 && |data| < 128
    ensures EncodeItem(Bytes(n, data)) == [8 * n + 2, |data|] + data
  {
    assert Tag(n, 2) == [8 * n + 2] && Varint(|data|) == [|data|];
  }

  lemma ShortNumber(n: nat, v: u64)
    requires 1 <= n < 16 && v < 128
    ensures EncodeItem(Number(n, v)) == [8 * n, v]
  {
    assert Tag(n, 0) == [8 * n] && Varint(v) == [v];
  }

  lemma TwoByteNumber(n: nat, v: u64)
    requires 1 <= n < 16 && 128 <= v < 0x4000
    ensures EncodeItem(Number(n, v)) == [8 * n, v % 128 + 128, v / 128]
  {
    assert Tag(n, 0) == [8 * n] && Varint(v / 128) == [v / 128];
    assert Varint(v) == [v % 128 + 128] + Varint(v / 128);
  }

  lemma OneItem(a: Item)
    ensures EncodeItems([a]) == EncodeItem(a)
  {
    var parts := EncodeEach([a]);
    assert Flatten(parts[1..]) == [];
    assert Flatten(parts) == parts[0] + Flatten(parts[1..]);
  }

  lemma NextItem(a: Item, more: seq<Item>)
    ensures EncodeItems([a] + more) == EncodeItem(a) + EncodeItems(more)
  {
    var parts := EncodeEach([a] + more);
    assert parts[1..] == EncodeEach(more);
    assert Flatten(parts) == parts[0] + Flatten(parts[1..]);
  }

  // ---------------------------------------------------------------- messages

  predicate Small(v: int) {
    0 <= v < 128
  }

  /** A request: the id as field 1, protocol version 6 as field 2. */
  lemma RequestLayout(id: Text)
    requires |id| < 128
    ensures RequestBytes(id) == [0x0A, |id|] + id + [0x10, 6]
  {
    ShortBytes(1, id);
    ShortNumber(2, 6);
    OneItem(Number(2, 6));
    NextItem(Bytes(1, id), [Number(2, 6)]);
    assert ConnectRequestItems(ConnectRequest(Some(id), Some(PROTOCOL_VERSION))) == [Bytes(1, id)] + [Number(2, 6)];
  }

  /** A response: the status, one to four, as field 1, the error text as field 2. */
  lemma ResponseLayout(s: ConnectStatus, error: Text)
    requires |error| < 128
    ensures var code := match s case NewClient => 1 case ReturningClient => 2 case InvalidKey => 3
                                case MismatchedProtocol => 4;
            && ResponseBytes(ConnectResponse(Some(s), None)) == [0x08, code]
            && ResponseBytes(ConnectResponse(Some(s), Some(error))) == [0x08, code, 0x12, |error|] + error
  {
    var status := Number(1, AsU64(StatusCode(s)));
    ShortNumber(1, StatusCode(s));
    ShortBytes(2, error);
    OneItem(status);
    OneItem(Bytes(2, error));
    NextItem(status, [Bytes(2, error)]);
    assert ConnectResponseItems(ConnectResponse(Some(s), None)) == [status];
    assert ConnectResponseItems(ConnectResponse(Some(s), Some(error))) == [status] + [Bytes(2, error)];
  }

  /** A sequence number is field 1. */
  lemma HeaderLayout(sequence: nat)
    requires sequence < 0x4000
    ensures HeaderBytes(sequence) ==
            if sequence < 128 then [0x08, sequence] else [0x08, sequence % 128 + 128, sequence / 128]
  {
    OneItem(Number(1, sequence));
    if sequence < 128 {
      ShortNumber(1, sequence);
    } else {
      TwoByteNumber(1, sequence);
    }
    assert SequenceHeaderItems(SequenceHeader(Some(AsI32(sequence)))) == [Number(1, sequence)];
  }

  /** Every entry of a catch-up is field 1 again. */
  lemma CatchupLayout(first: Blob, second: Blob)
    requires |first| < 128 && |second| < 128
    ensures EncodeItems(CatchupItems([first, second])) == [0x0A, |first|] + first + [0x0A, |second|] + second
  {
    ShortBytes(1, first);
    ShortBytes(1, second);
    OneItem(Bytes(1, second));
    NextItem(Bytes(1, first), [Bytes(1, second)]);
    assert CatchupItems([first, second]) == [Bytes(1, first)] + [Bytes(1, second)];
  }

  lemma TerminalLayout(id: Text, row: i32, column: i32, width: i32, height: i32)
    requires |id| < 128 && Small(row) && Small(column) && Small(width) && Small(height)
    ensures EncodeItems(TerminalInfoItems(TerminalInfo(Some(id), Some(row), Some(column), Some(width), Some(height))))
         == [0x0A, |id|] + id + [0x10, row, 0x18, column, 0x20, width, 0x28, height]
    ensures EncodeItems(TerminalBufferItems(TerminalBuffer(Some(id)))) == [0x0A, |id|] + id
    ensures EncodeItems(InitialResponseItems(InitialResponse(Some(id)))) == [0x0A, |id|] + id
  {
    var a, b, c, d, e := Bytes(1, id), Number(2, row), Number(3, column), Number(4, width), Number(5, height);
    ShortBytes(1, id);
    ShortNumber(2, row);
    ShortNumber(3, column);
    ShortNumber(4, width);
    ShortNumber(5, height);
    OneItem(a);
    OneItem(e);
    NextItem(d, [e]);
    NextItem(c, [d] + [e]);
    NextItem(b, [c] + ([d] + [e]));
    NextItem(a, [b] + ([c] + ([d] + [e])));
    assert TerminalInfoItems(TerminalInfo(Some(id), Some(row), Some(column), Some(width), Some(height)))
        == [a] + ([b] + ([c] + ([d] + [e])));
  }

  lemma EndpointLayout(name: Text, port: i32)
    requires |name| < 128 && Small(port)
    ensures EncodeEndpoint(SocketEndpoint(Some(name), Some(port))) == ([0x0A, |name|] + name) + [0x10, port]
  {
    var a, b := Bytes(1, name), Number(2, port);
    assert EndpointItems(SocketEndpoint(Some(name), Some(port))) == [a] + [b];
    TwoItems(a, b);
    ShortBytes(1, name);
    ShortNumber(2, port);
  }

  lemma TwoItems(a: Item, b: Item)
    ensures EncodeItems([a] + [b]) == EncodeItem(a) + EncodeItem(b)
  {
    OneItem(b);
    NextItem(a, [b]);
  }

  /** A tunnel: the embedded source as field 1, the embedded destination as field 2, the variable as field 3. */
  lemma TunnelLayout(source: SocketEndpoint, destination: SocketEndpoint, variable: Text)
    requires |EncodeEndpoint(source)| < 128 && |EncodeEndpoint(destination)| < 128 && |variable| < 128
    ensures var t := PortForwardSourceRequest(Some(source), Some(destination), Some(variable));
            var from, to := EncodeEndpoint(source), EncodeEndpoint(destination);
            TunnelOk(t)
            && EncodeTunnel(t) == ([0x0A, |from|] + from) + (([0x12, |to|] + to) + ([0x1A, |variable|] + variable))
  {
    var from, to := EncodeEndpoint(source), EncodeEndpoint(destination);
    TunnelItemsAre(source, destination, variable);
    ThreeItems(Bytes(1, from), Bytes(2, to), Bytes(3, variable));
    ShortBytes(1, from);
    ShortBytes(2, to);
    ShortBytes(3, variable);
  }

  lemma TunnelItemsAre(source: SocketEndpoint, destination: SocketEndpoint, variable: Text)
    requires |EncodeEndpoint(source)| < 128 && |EncodeEndpoint(destination)| < 128
    ensures var t := PortForwardSourceRequest(Some(source), Some(destination), Some(variable));
            TunnelOk(t)
            && TunnelItems(t) == [Bytes(1, EncodeEndpoint(source))]
                                 + ([Bytes(2, EncodeEndpoint(destination))] + [Bytes(3, variable)])
  {
  }

  lemma ThreeItems(a: Item, b: Item, c: Item)
    ensures EncodeItems([a] + ([b] + [c])) == EncodeItem(a) + (EncodeItem(b) + EncodeItem(c))
  {
    OneItem(c);
    NextItem(b, [c]);
    NextItem(a, [b] + [c]);
  }

  lemma EntryLayout(key: Text, value: Text)
    requires |key| < 128 && |value| < 128
    ensures EncodeItems(EntryItems(key, value)) == ([0x0A, |key|] + key) + ([0x12, |value|] + value)
  {
    ShortBytes(1, key);
    ShortBytes(2, value);
    OneItem(Bytes(2, value));
    NextItem(Bytes(1, key), [Bytes(2, value)]);
  }

  /** A payload: the flag when it is true, then a tunnel as field 2, then an entry of the environment as field 3. */
  lemma PayloadLayout(t: PortForwardSourceRequest, key: Text, value: Text)
    requires TunnelOk(t) && |EncodeTunnel(t)| < 128 && |EncodeItems(EntryItems(key, value))| < 128
    ensures var m, tunnel := InitialPayload(Some(true), [t], map[key := value]), EncodeTunnel(t);
            var entry := EncodeItems(EntryItems(key, value));
            && PayloadFits(m) && IterationOrder(m.environment, [key])
            && EncodeItems(InitialPayloadItems(m, [key]))
               == [0x08, 1] + (([0x12, |tunnel|] + tunnel) + ([0x1A, |entry|] + entry))
  {
    var tunnel, entry := EncodeTunnel(t), EncodeItems(EntryItems(key, value));
    PayloadItemsAre(t, key, value);
    ThreeItems(Number(1, 1), Bytes(2, tunnel), Bytes(3, entry));
    ShortNumber(1, 1);
    ShortBytes(2, tunnel);
    ShortBytes(3, entry);
  }

  lemma PayloadItemsAre(t: PortForwardSourceRequest, key: Text, value: Text)
    requires TunnelFits(t) && EntryFits(key, value)
    ensures var m := InitialPayload(Some(true), [t], map[key := value]);
            && PayloadFits(m) && IterationOrder(m.environment, [key])
            && InitialPayloadItems(m, [key])
               == [Number(1, 1)] + ([Bytes(2, EncodeTunnel(t))] + [Bytes(3, EncodeItems(EntryItems(key, value)))])
  {
    OneEntry(key, value);
    assert TunnelsItems([t]) == [Bytes(2, EncodeTunnel(t))];
  }

  lemma OneEntry(key: Text, value: Text)
    requires EntryFits(key, value)
    ensures EnvironmentItems(map[key := value], [key]) == [Bytes(3, EncodeItems(EntryItems(key, value)))]
  {
    assert [key][1..] == [] && EnvironmentItems(map[key := value], []) == [];
  }

  // ---------------------------------------------------------------- decoding

  /** A status field: the four codes and nothing else name a status. */
  lemma StatusCodes(m: ConnectResponse, f: Field)
    requires f.number == 1 && AsVarint(f).Some?
    ensures var status := TakeConnectResponse(m, f).value.status;
            var low := AsVarint(f).value % 0x1_0000_0000;
            && (status == Some(NewClient) <==> low == 1)
            && (status == Some(ReturningClient) <==> low == 2)
            && (status == Some(InvalidKey) <==> low == 3)
            && (status == Some(MismatchedProtocol) <==> low == 4)
            && (status == None <==> low == 0 || low > 4)
            && TakeConnectResponse(m, f).value.error == m.error
  {
  }

  /** Fields with other numbers are passed over. */
  lemma OthersArePassedOver(f: Field, request: ConnectRequest, response: ConnectResponse, header: SequenceHeader,
                            catchup: CatchupBuffer, buffer: TerminalBuffer, info: TerminalInfo,
                            initial: InitialResponse, endpoint: SocketEndpoint, tunnel: PortForwardSourceRequest,
                            entry: MapEntry, payload: InitialPayload)
    ensures f.number !in {1, 2} ==>
              && TakeConnectRequest(request, f) == Ok(request) && TakeConnectResponse(response, f) == Ok(response)
              && TakeEndpoint(endpoint, f) == Ok(endpoint) && TakeMapEntry(entry, f) == Ok(entry)
    ensures f.number != 1 ==>
              && TakeSequenceHeader(header, f) == Ok(header) && TakeCatchup(catchup, f) == Ok(catchup)
              && TakeTerminalBuffer(buffer, f) == Ok(buffer) && TakeInitialResponse(initial, f) == Ok(initial)
    ensures f.number !in {1, 2, 3} ==> TakeTunnel(tunnel, f) == Ok(tunnel) && TakePayload(payload, f) == Ok(payload)
    ensures f.number !in {1, 2, 3, 4, 5} ==> TakeTerminalInfo(info, f) == Ok(info)
  {
  }

  /** A field with a known number and another wire type: an optional text, number or byte vector is cleared, a status,
      a list and an embedded message are left as they were. */
  lemma OtherWireTypes(f: Field, number: nat, request: ConnectRequest, response: ConnectResponse,
                       header: SequenceHeader, catchup: CatchupBuffer, tunnel: PortForwardSourceRequest,
                       payload: InitialPayload)
    requires f.number == number
    ensures f.wireType != 2 && number == 1 ==>
              && TakeConnectRequest(request, f) == Ok(request.(clientId := None))
              && TakeCatchup(catchup, f) == Ok(catchup) && TakeTunnel(tunnel, f) == Ok(tunnel)
    ensures f.wireType != 0 && number == 1 ==>
              && TakeConnectResponse(response, f) == Ok(response)
              && TakeSequenceHeader(header, f) == Ok(SequenceHeader(None))
              && TakePayload(payload, f) == Ok(payload.(jumphost := None))
    ensures f.wireType != 0 && number == 2 ==> TakeConnectRequest(request, f) == Ok(request.(version := None))
    ensures f.wireType != 2 && number == 2 ==>
              && TakeConnectResponse(response, f) == Ok(response.(error := None))
              && TakeTunnel(tunnel, f) == Ok(tunnel) && TakePayload(payload, f) == Ok(payload)
    ensures f.wireType != 2 && number == 3 ==>
              && TakeTunnel(tunnel, f) == Ok(tunnel.(environmentVariable := None))
              && TakePayload(payload, f) == Ok(payload)
  {
  }

  /** An embedded endpoint is taken whole, and fails the tunnel if it cannot be decoded. */
  lemma EmbeddedEndpoints(m: PortForwardSourceRequest, f: Field)
    requires f.number in {1, 2} && f.wireType == 2
    ensures match DecodeEndpoint(f.data)
            case Err(e) => TakeTunnel(m, f) == Err(e)
            case Ok(endpoint) =>
              TakeTunnel(m, f) == Ok(if f.number == 1 then m.(source := Some(endpoint))
                                     else m.(destination := Some(endpoint)))
  {
  }

  /** A payload's fields: any number but zero is a true flag; a tunnel is added behind the others; an entry is set only
      if it has both its key and its value; what cannot be decoded fails the payload. */
  lemma PayloadFields(m: InitialPayload, f: Field)
    ensures f.number == 1 ==>
              TakePayload(m, f).Ok?
              && var n := TakePayload(m, f).value;
                 && n == m.(jumphost := n.jumphost)
                 && (n.jumphost == Some(true) <==> AsVarint(f).Some? && AsVarint(f).value > 0)
                 && (n.jumphost == Some(false) <==> AsVarint(f) == Some(0))
    ensures f.number == 2 && f.wireType == 2 ==>
              match DecodeTunnel(f.data)
              case Err(e) => TakePayload(m, f) == Err(e)
              case Ok(t) => TakePayload(m, f) == Ok(m.(reverseTunnels := m.reverseTunnels + [t]))
    ensures f.number == 3 && f.wireType == 2 ==>
              match Decode(TakeMapEntry, MapEntry(None, None), f.data)
              case Err(e) => TakePayload(m, f) == Err(e)
              case Ok(e) =>
                && (e.key.None? || e.value.None? ==> TakePayload(m, f) == Ok(m))
                && (e.key.Some? && e.value.Some? ==>
                    TakePayload(m, f) == Ok(m.(environment := m.environment[e.key.value := e.value.value])))
  {
  }

  /** A message is read by its length first: a negative one or one above 128 MiB is refused and named, as a signed
      number; an allowed one waits for that many bytes. */
  lemma LengthDecides<M>(take: (M, Field) -> Result<M, ProtoError>, empty: M, s: seq<byte>)
    requires |s| >= 8
    ensures var n, r := FromLe(s[..8]), ReadFramed(take, empty, s);
            && (n >= 0x8000_0000_0000_0000 ==> r == Err(InvalidLength(n - 0x1_0000_0000_0000_0000)))
            && (134217728 < n < 0x8000_0000_0000_0000 ==> r == Err(InvalidLength(n)))
            && (n <= 134217728 && |s| - 8 < n ==> r == Err(EndOfInput))
            && (n <= 134217728 && |s| - 8 >= n ==>
                match Decode(take, empty, s[8..8 + n])
                case Err(e) => r == Err(Undecodable(e))
                case Ok(m) => r == Ok((m, 8 + n)))
  {
    LeBelow(s[..8]);
  }

  lemma LeBelow(s: seq<byte>)
    requires |s| == 8
    ensures FromLe(s) < 0x1_0000_0000_0000_0000
  {
    assert Pow256(8) == U64;
  }

  /** A header without a number counts as zero. */
  lemma HeaderNumbers(n: i32)
    ensures RemoteSequence(SequenceHeader(Some(n))) == n && RemoteSequence(SequenceHeader(None)) == 0
  {
  }
}
