/** The encoders as they run, appending to a buffer field by field, loop by loop. */
module Encoders {
  import opened Outcomes
  import opened Bytes
  import opened Varints
  import opened Wire
  import opened Messages

  method PutOptBytes(out: ByteBuffer, number: nat, o: Option<Blob>)
    requires FieldNumber(number)
    modifies out
    ensures out.bytes == old(out.bytes) + EncodeItems(OptBytes(number, o))
  {
    if o.Some? {
      WriteBytes(out, number, o.value);
      EncodeOne(Bytes(number, o.value));
    }
  }

  method PutOptInt32(out: ByteBuffer, number: nat, o: Option<i32>)
    requires FieldNumber(number)
    modifies out
    ensures out.bytes == old(out.bytes) + EncodeItems(OptInt32(number, o))
  {
    if o.Some? {
      WriteInt32(out, number, o.value);
      EncodeOne(Number(number, AsU64(o.value)));
    }
  }

  lemma OneMoreItem(items: seq<Item>, last: Item)
    ensures EncodeItems(items + [last]) == EncodeItems(items) + EncodeItem(last)
  {
    EncodeItemsAppend(items, [last]);
    EncodeOne(last);
  }

  /** `start` and the first `i` items written, then the next. */
  lemma OneMoreOf(start: seq<byte>, items: seq<Item>, i: nat)
    requires i < |items|
    ensures start + EncodeItems(items[..i]) + EncodeItem(items[i]) == start + EncodeItems(items[..i + 1])
  {
    assert items[..i + 1] == items[..i] + [items[i]];
    OneMoreItem(items[..i], items[i]);
    Reassociate(start, EncodeItems(items[..i]), EncodeItem(items[i]));
  }

  lemma ThreeParts(a: seq<Item>, b: seq<Item>, c: seq<Item>)
    ensures EncodeItems(a + (b + c)) == EncodeItems(a) + EncodeItems(b) + EncodeItems(c)
  {
    EncodeItemsAppend(b, c);
    EncodeItemsAppend(a, b + c);
    assert EncodeItems(a) + (EncodeItems(b) + EncodeItems(c)) == EncodeItems(a) + EncodeItems(b) + EncodeItems(c);
  }

  lemma FiveParts(a: seq<Item>, b: seq<Item>, c: seq<Item>, d: seq<Item>, e: seq<Item>)
    ensures EncodeItems(a + (b + (c + (d + e))))
            == EncodeItems(a) + EncodeItems(b) + EncodeItems(c) + EncodeItems(d) + EncodeItems(e)
  {
    ThreeParts(c, d, e);
    ThreeParts(a, b, c + (d + e));
    Reassociate(EncodeItems(a) + EncodeItems(b), EncodeItems(c) + EncodeItems(d), EncodeItems(e));
    Reassociate(EncodeItems(a) + EncodeItems(b), EncodeItems(c), EncodeItems(d));
  }

  method EncodeConnectRequest(m: ConnectRequest) returns (bytes: seq<byte>)
    ensures bytes == EncodeItems(ConnectRequestItems(m))
  {
    var out := new ByteBuffer();
    PutOptBytes(out, 1, m.clientId);
    assert out.bytes == EncodeItems(OptBytes(1, m.clientId));
    PutOptInt32(out, 2, m.version);
    EncodeItemsAppend(OptBytes(1, m.clientId), OptInt32(2, m.version));
    bytes := out.bytes;
  }

  method EncodeSequenceHeader(m: SequenceHeader) returns (bytes: seq<byte>)
    ensures bytes == EncodeItems(SequenceHeaderItems(m))
  {
    var out := new ByteBuffer();
    PutOptInt32(out, 1, m.sequenceNumber);
    bytes := out.bytes;
  }

  method EncodeTerminalInfo(m: TerminalInfo) returns (bytes: seq<byte>)
    ensures bytes == EncodeItems(TerminalInfoItems(m))
  {
    var out := new ByteBuffer();
    PutOptBytes(out, 1, m.id);
    assert out.bytes == EncodeItems(OptBytes(1, m.id));
    PutOptInt32(out, 2, m.row);
    PutOptInt32(out, 3, m.column);
    PutOptInt32(out, 4, m.width);
    PutOptInt32(out, 5, m.height);
    bytes := out.bytes;
    FiveParts(OptBytes(1, m.id), OptInt32(2, m.row), OptInt32(3, m.column), OptInt32(4, m.width),
              OptInt32(5, m.height));
  }

  // ---------------------------------------------------------------- lists of entries

  method EncodeCatchup(buffer: seq<Blob>) returns (bytes: seq<byte>)
    ensures bytes == EncodeItems(CatchupItems(buffer))
  {
    var out := new ByteBuffer();
    ghost var items := CatchupItems(buffer);
    assert items[..0] == [] && EncodeItems([]) == [];
    for i := 0 to |buffer|
      invariant out.bytes == EncodeItems(items[..i])
    {
      WriteBytes(out, 1, buffer[i]);
      assert items[..i + 1] == items[..i] + [items[i]];
      OneMoreItem(items[..i], items[i]);
    }
    assert items[..|buffer|] == items;
    bytes := out.bytes;
  }

  // ---------------------------------------------------------------- nested messages

  method EncodeSocketEndpoint(m: SocketEndpoint) returns (bytes: seq<byte>)
    ensures bytes == EncodeEndpoint(m)
  {
    var out := new ByteBuffer();
    PutOptBytes(out, 1, m.name);
    assert out.bytes == EncodeItems(OptBytes(1, m.name));
    PutOptInt32(out, 2, m.port);
    EncodeItemsAppend(OptBytes(1, m.name), OptInt32(2, m.port));
    bytes := out.bytes;
  }

  method PutOptEndpoint(out: ByteBuffer, number: nat, o: Option<SocketEndpoint>)
    requires FieldNumber(number) && EndpointFits(o)
    modifies out
    ensures out.bytes == old(out.bytes) + EncodeItems(OptEndpoint(number, o))
  {
    if o.Some? {
      var endpoint := EncodeSocketEndpoint(o.value);
      WriteBytes(out, number, endpoint);
      EncodeOne(Bytes(number, endpoint));
    }
  }

  method EncodePortForward(m: PortForwardSourceRequest) returns (bytes: seq<byte>)
    requires TunnelOk(m)
    ensures bytes == EncodeTunnel(m)
  {
    var out := new ByteBuffer();
    PutOptEndpoint(out, 1, m.source);
    assert out.bytes == EncodeItems(OptEndpoint(1, m.source));
    PutOptEndpoint(out, 2, m.destination);
    PutOptBytes(out, 3, m.environmentVariable);
    ThreeParts(OptEndpoint(1, m.source), OptEndpoint(2, m.destination), OptBytes(3, m.environmentVariable));
    bytes := out.bytes;
  }

  method PutTunnel(out: ByteBuffer, tunnel: PortForwardSourceRequest, ghost item: Item)
    requires TunnelFits(tunnel) && item == Bytes(2, EncodeTunnel(tunnel))
    modifies out
    ensures out.bytes == old(out.bytes) + EncodeItem(item)
  {
    var bytes := EncodePortForward(tunnel);
    WriteBytes(out, 2, bytes);
  }

  method PutTunnels(out: ByteBuffer, tunnels: seq<PortForwardSourceRequest>)
    requires AllFit(tunnels)
    modifies out
    ensures out.bytes == old(out.bytes) + EncodeItems(TunnelsItems(tunnels))
  {
    ghost var start, items := out.bytes, TunnelsItems(tunnels);
    assert items[..0] == [] && EncodeItems([]) == [];
    for i := 0 to |tunnels|
      invariant out.bytes == start + EncodeItems(items[..i])
    {
      PutTunnel(out, tunnels[i], items[i]);
      OneMoreOf(start, items, i);
    }
    assert items[..|tunnels|] == items;
  }

  method PutMapEntry(out: ByteBuffer, number: nat, key: Text, value: Text)
    requires FieldNumber(number) && EntryFits(key, value)
    modifies out
    ensures out.bytes == old(out.bytes) + LengthField(number, EncodeItems(EntryItems(key, value)))
  {
    var entry := new ByteBuffer();
    WriteBytes(entry, 1, key);
    assert entry.bytes == LengthField(1, key);
    WriteBytes(entry, 2, value);
    EncodeOne(Bytes(1, key));
    OneMoreItem([Bytes(1, key)], Bytes(2, value));
    assert entry.bytes == EncodeItems(EntryItems(key, value));
    WriteBytes(out, number, entry.bytes);
  }

  /** The loop over the map, in the order its iterator gives the keys. */
  method PutEnvironment(out: ByteBuffer, env: map<Text, Text>, order: seq<Text>)
    requires EnvironmentFits(env) && forall i :: 0 <= i < |order| ==> order[i] in env
    modifies out
    ensures out.bytes == old(out.bytes) + EncodeItems(EnvironmentItems(env, order))
  {
    ghost var start, items := out.bytes, EnvironmentItems(env, order);
    assert items[..0] == [] && EncodeItems([]) == [];
    for i := 0 to |order|
      invariant out.bytes == start + EncodeItems(items[..i])
    {
      EnvironmentItemAt(env, order, i);
      PutMapEntry(out, 3, order[i], env[order[i]]);
      OneMoreOf(start, items, i);
    }
    assert items[..|order|] == items;
  }

  lemma {:induction false} EnvironmentItemAt(env: map<Text, Text>, order: seq<Text>, i: nat)
    requires EnvironmentFits(env) && i < |order| && forall j :: 0 <= j < |order| ==> order[j] in env
    ensures EntryFits(order[i], env[order[i]])
    ensures EnvironmentItems(env, order)[i] == Bytes(3, EncodeItems(EntryItems(order[i], env[order[i]])))
    decreases i
  {
    assert EntryFits(order[i], env[order[i]]);
    if i > 0 {
      var rest := EnvironmentItems(env, order[1..]);
      EnvironmentItemAt(env, order[1..], i - 1);
      assert order[1..][i - 1] == order[i];
      assert EnvironmentItems(env, order)[i] == rest[i - 1];
    }
  }

  method PutJumphost(out: ByteBuffer, jumphost: Option<bool>)
    modifies out
    ensures out.bytes == old(out.bytes) + EncodeItems(JumphostItems(jumphost))
  {
    if jumphost == Some(true) {
      WriteBool(out, 1, true);
      EncodeOne(Number(1, 1));
    }
  }

  method EncodeInitialPayload(m: InitialPayload, order: seq<Text>) returns (bytes: seq<byte>)
    requires PayloadFits(m) && IterationOrder(m.environment, order)
    ensures bytes == EncodeItems(InitialPayloadItems(m, order))
  {
    var out := new ByteBuffer();
    PutJumphost(out, m.jumphost);
    assert out.bytes == EncodeItems(JumphostItems(m.jumphost));
    PutTunnels(out, m.reverseTunnels);
    PutEnvironment(out, m.environment, order);
    ThreeParts(JumphostItems(m.jumphost), TunnelsItems(m.reverseTunnels), EnvironmentItems(m.environment, order));
    bytes := out.bytes;
  }
}
