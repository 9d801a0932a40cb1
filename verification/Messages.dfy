/** The messages of the protocol: what each encoder writes, what each decoder takes from a field. */
module Messages {
  import opened Outcomes
  import opened Bytes
  import opened Varints
  import opened Wire

  datatype ConnectStatus = NewClient | ReturningClient | InvalidKey | MismatchedProtocol

  function StatusCode(s: ConnectStatus): i32 {
    match s
    case NewClient => 1
    case ReturningClient => 2
    case InvalidKey => 3
    case MismatchedProtocol => 4
  }

  function FromI32(v: int): Option<ConnectStatus> {
    if v == 1 then Some(NewClient)
    else if v == 2 then Some(ReturningClient)
    else if v == 3 then Some(InvalidKey)
    else if v == 4 then Some(MismatchedProtocol)
    else None
  }

  datatype ConnectRequest = ConnectRequest(clientId: Option<Text>, version: Option<i32>)
  datatype ConnectResponse = ConnectResponse(status: Option<ConnectStatus>, error: Option<Text>)
  datatype SequenceHeader = SequenceHeader(sequenceNumber: Option<i32>)
  datatype CatchupBuffer = CatchupBuffer(buffer: seq<Blob>)
  datatype TerminalBuffer = TerminalBuffer(buffer: Option<Blob>)
  datatype TerminalInfo =
    TerminalInfo(id: Option<Text>, row: Option<i32>, column: Option<i32>, width: Option<i32>, height: Option<i32>)
  datatype InitialResponse = InitialResponse(error: Option<Text>)
  datatype SocketEndpoint = SocketEndpoint(name: Option<Text>, port: Option<i32>)
  datatype PortForwardSourceRequest =
    PortForwardSourceRequest(source: Option<SocketEndpoint>, destination: Option<SocketEndpoint>,
                             environmentVariable: Option<Text>)
  datatype InitialPayload =
    InitialPayload(jumphost: Option<bool>, reverseTunnels: seq<PortForwardSourceRequest>, environment: map<Text, Text>)

  // ---------------------------------------------------------------- what the encoders write

  function OptBytes(number: nat, o: Option<Blob>): seq<Item> {
    match o
    case Some(b) => [Bytes(number, b)]
    case None => []
  }

  function OptInt32(number: nat, o: Option<i32>): seq<Item> {
    match o
    case Some(v) => [Number(number, AsU64(v))]
    case None => []
  }

  function ConnectRequestItems(m: ConnectRequest): seq<Item> {
    OptBytes(1, m.clientId) + OptInt32(2, m.version)
  }

  function ConnectResponseItems(m: ConnectResponse): seq<Item> {
    OptInt32(1, match m.status case Some(s) => Some(StatusCode(s)) case None => None) + OptBytes(2, m.error)
  }

  function SequenceHeaderItems(m: SequenceHeader): seq<Item> {
    OptInt32(1, m.sequenceNumber)
  }

  function CatchupItems(buffer: seq<Blob>): (items: seq<Item>)
    ensures |items| == |buffer| && forall i :: 0 <= i < |buffer| ==> items[i] == Bytes(1, buffer[i])
  {
    seq(|buffer|, i requires 0 <= i < |buffer| => Bytes(1, buffer[i]))
  }

  function TerminalBufferItems(m: TerminalBuffer): seq<Item> {
    OptBytes(1, m.buffer)
  }

  function TerminalInfoItems(m: TerminalInfo): seq<Item> {
    OptBytes(1, m.id) + (OptInt32(2, m.row) + (OptInt32(3, m.column) + (OptInt32(4, m.width) + OptInt32(5, m.height))))
  }

  function InitialResponseItems(m: InitialResponse): seq<Item> {
    OptBytes(1, m.error)
  }

  function EndpointItems(m: SocketEndpoint): seq<Item> {
    OptBytes(1, m.name) + OptInt32(2, m.port)
  }

  function EncodeEndpoint(m: SocketEndpoint): seq<byte> {
    EncodeItems(EndpointItems(m))
  }

  /** Whether an embedded message's length can be written: it is a vector's length. */
  ghost predicate EndpointFits(o: Option<SocketEndpoint>) {
    o.Some? ==> |EncodeEndpoint(o.value)| < U64
  }

  ghost predicate TunnelOk(m: PortForwardSourceRequest) {
    EndpointFits(m.source) && EndpointFits(m.destination)
  }

  ghost function OptEndpoint(number: nat, o: Option<SocketEndpoint>): seq<Item>
    requires EndpointFits(o)
  {
    match o
    case Some(e) => [Bytes(number, EncodeEndpoint(e))]
    case None => []
  }

  ghost function TunnelItems(m: PortForwardSourceRequest): seq<Item>
    requires TunnelOk(m)
  {
    OptEndpoint(1, m.source) + (OptEndpoint(2, m.destination) + OptBytes(3, m.environmentVariable))
  }

  ghost function EncodeTunnel(m: PortForwardSourceRequest): seq<byte>
    requires TunnelOk(m)
  {
    EncodeItems(TunnelItems(m))
  }

  ghost predicate TunnelFits(m: PortForwardSourceRequest) {
    TunnelOk(m) && |EncodeTunnel(m)| < U64
  }

  ghost predicate AllFit(tunnels: seq<PortForwardSourceRequest>) {
    forall i :: 0 <= i < |tunnels| ==> TunnelFits(tunnels[i])
  }

  ghost function TunnelsItems(tunnels: seq<PortForwardSourceRequest>): (items: seq<Item>)
    requires AllFit(tunnels)
    ensures |items| == |tunnels|
    ensures forall i :: 0 <= i < |items| ==> TunnelFits(tunnels[i]) && items[i] == Bytes(2, EncodeTunnel(tunnels[i]))
  {
    seq(|tunnels|, i requires 0 <= i < |tunnels| => assert TunnelFits(tunnels[i]); Bytes(2, EncodeTunnel(tunnels[i])))
  }

  function EntryItems(k: Text, v: Text): seq<Item> {
    [Bytes(1, k)] + [Bytes(2, v)]
  }

  ghost predicate EntryFits(k: Text, v: Text) {
    |EncodeItems(EntryItems(k, v))| < U64
  }

  ghost predicate EnvironmentFits(env: map<Text, Text>) {
    forall k :: k in env ==> EntryFits(k, env[k])
  }

  /** The map is written in the order its iterator happens to give the keys. */
  ghost function EnvironmentItems(env: map<Text, Text>, order: seq<Text>): (items: seq<Item>)
    requires EnvironmentFits(env) && forall i :: 0 <= i < |order| ==> order[i] in env
    ensures |items| == |order|
    ensures forall i :: 0 <= i < |items| ==> items[i].number == 3
  {
    if order == [] then []
    else [Bytes(3, EncodeItems(EntryItems(order[0], env[order[0]])))] + EnvironmentItems(env, order[1..])
  }

  /** An iteration order of a map: each key once. */
  ghost predicate IterationOrder(env: map<Text, Text>, order: seq<Text>) {
    && (forall i :: 0 <= i < |order| ==> order[i] in env)
    && (forall k :: k in env ==> k in order)
    && (forall i, j :: 0 <= i < j < |order| ==> order[i] != order[j])
  }

  ghost predicate PayloadFits(m: InitialPayload) {
    AllFit(m.reverseTunnels) && EnvironmentFits(m.environment)
  }

  /** Only a true `jumphost` is written. */
  function JumphostItems(o: Option<bool>): seq<Item> {
    if o == Some(true) then [Number(1, 1)] else []
  }

  ghost function InitialPayloadItems(m: InitialPayload, order: seq<Text>): seq<Item>
    requires PayloadFits(m) && IterationOrder(m.environment, order)
  {
    JumphostItems(m.jumphost) + (TunnelsItems(m.reverseTunnels) + EnvironmentItems(m.environment, order))
  }

  // ---------------------------------------------------------------- what the decoders take from a field

  const NO_REQUEST := ConnectRequest(None, None)
  const NO_RESPONSE := ConnectResponse(None, None)
  const NO_HEADER := SequenceHeader(None)
  const NO_CATCHUP := CatchupBuffer([])
  const NO_TERMINAL_BUFFER := TerminalBuffer(None)
  const NO_TERMINAL_INFO := TerminalInfo(None, None, None, None, None)
  const NO_INITIAL_RESPONSE := InitialResponse(None)
  const NO_ENDPOINT := SocketEndpoint(None, None)
  const NO_TUNNEL := PortForwardSourceRequest(None, None, None)
  const NO_PAYLOAD := InitialPayload(None, [], map[])

  function TakeConnectRequest(m: ConnectRequest, f: Field): Result<ConnectRequest, ProtoError> {
    Ok(match f.number
       case 1 => m.(clientId := AsText(f))
       case 2 => m.(version := AsInt32(f))
       case _ => m)
  }

  /** An unreadable status leaves the old one; an unknown number clears it. */
  function TakeConnectResponse(m: ConnectResponse, f: Field): Result<ConnectResponse, ProtoError> {
    Ok(match f.number
       case 1 => (match AsVarint(f) case Some(v) => m.(status := FromI32(AsI32(v))) case None => m)
       case 2 => m.(error := AsText(f))
       case _ => m)
  }

  function TakeSequenceHeader(m: SequenceHeader, f: Field): Result<SequenceHeader, ProtoError> {
    Ok(if f.number == 1 then m.(sequenceNumber := AsInt32(f)) else m)
  }

  function TakeCatchup(m: CatchupBuffer, f: Field): Result<CatchupBuffer, ProtoError> {
    Ok(if f.number == 1 && AsBytes(f).Some? then CatchupBuffer(m.buffer + [AsBytes(f).value]) else m)
  }

  function TakeTerminalBuffer(m: TerminalBuffer, f: Field): Result<TerminalBuffer, ProtoError> {
    Ok(if f.number == 1 then TerminalBuffer(AsBytes(f)) else m)
  }

  function TakeTerminalInfo(m: TerminalInfo, f: Field): Result<TerminalInfo, ProtoError> {
    Ok(match f.number
       case 1 => m.(id := AsText(f))
       case 2 => m.(row := AsInt32(f))
       case 3 => m.(column := AsInt32(f))
       case 4 => m.(width := AsInt32(f))
       case 5 => m.(height := AsInt32(f))
       case _ => m)
  }

  function TakeInitialResponse(m: InitialResponse, f: Field): Result<InitialResponse, ProtoError> {
    Ok(if f.number == 1 then InitialResponse(AsText(f)) else m)
  }

  function TakeEndpoint(m: SocketEndpoint, f: Field): Result<SocketEndpoint, ProtoError> {
    Ok(match f.number
       case 1 => m.(name := AsText(f))
       case 2 => m.(port := AsInt32(f))
       case _ => m)
  }

  function DecodeEndpoint(bytes: seq<byte>): Result<SocketEndpoint, ProtoError> {
    Decode(TakeEndpoint, NO_ENDPOINT, bytes)
  }

  function TakeTunnel(m: PortForwardSourceRequest, f: Field): Result<PortForwardSourceRequest, ProtoError> {
    if f.number == 1 && AsBytes(f).Some? then
      match DecodeEndpoint(f.data)
      case Err(e) => Err(e)
      case Ok(s) => Ok(m.(source := Some(s)))
    else if f.number == 2 && AsBytes(f).Some? then
      match DecodeEndpoint(f.data)
      case Err(e) => Err(e)
      case Ok(d) => Ok(m.(destination := Some(d)))
    else if f.number == 3 then Ok(m.(environmentVariable := AsText(f)))
    else Ok(m)
  }

  function DecodeTunnel(bytes: seq<byte>): Result<PortForwardSourceRequest, ProtoError> {
    Decode(TakeTunnel, NO_TUNNEL, bytes)
  }

  datatype MapEntry = MapEntry(key: Option<Text>, value: Option<Text>)

  function TakeMapEntry(m: MapEntry, f: Field): Result<MapEntry, ProtoError> {
    Ok(match f.number
       case 1 => m.(key := AsText(f))
       case 2 => m.(value := AsText(f))
       case _ => m)
  }

  function TakePayload(m: InitialPayload, f: Field): Result<InitialPayload, ProtoError> {
    if f.number == 1 then
      Ok(m.(jumphost := match AsVarint(f) case Some(v) => Some(v != 0) case None => None))
    else if f.number == 2 && AsBytes(f).Some? then
      match DecodeTunnel(f.data)
      case Err(e) => Err(e)
      case Ok(t) => Ok(m.(reverseTunnels := m.reverseTunnels + [t]))
    else if f.number == 3 && AsBytes(f).Some? then
      match Decode(TakeMapEntry, MapEntry(None, None), f.data)
      case Err(e) => Err(e)
      case Ok(e) =>
        Ok(if e.key.Some? && e.value.Some? then m.(environment := m.environment[e.key.value := e.value.value]) else m)
    else Ok(m)
  }
}
