/** Tagged fields: how one is written, how a message is split into them, and folding them into a message. */
module Wire {
  import opened Outcomes
  import opened Bytes
  import opened Varints

  /** A byte vector; its length fits in 64 bits. */
  type Blob = s: seq<byte> | |s| < 0x1_0000_0000_0000_0000

  predicate Continues(b: byte) {
    0x80 <= b < 0xC0
  }

  /** Well-formed UTF-8, as the table of well-formed byte sequences has it: no overlong forms, no surrogates. */
  predicate Utf8(s: seq<byte>)
    decreases |s|
  {
    s == []
    || (s[0] < 0x80 && Utf8(s[1..]))
    || (|s| >= 2 && 0xC2 <= s[0] < 0xE0 && Continues(s[1]) && Utf8(s[2..]))
    || (|s| >= 3 && 0xE0 <= s[0] < 0xF0 && Continues(s[1]) && Continues(s[2])
        && (s[0] == 0xE0 ==> s[1] >= 0xA0) && (s[0] == 0xED ==> s[1] < 0xA0) && Utf8(s[3..]))
    || (|s| >= 4 && 0xF0 <= s[0] < 0xF5 && Continues(s[1]) && Continues(s[2]) && Continues(s[3])
        && (s[0] == 0xF0 ==> s[1] >= 0x90) && (s[0] == 0xF4 ==> s[1] < 0x90) && Utf8(s[4..]))
  }

  /** A string: a byte vector that is well-formed UTF-8. */
  type Text = s: Blob | Utf8(s)

  /** A parsed field. A varint's data is its canonical re-encoding. */
  datatype Field = Field(number: nat, wireType: nat, data: Blob)

  // ---------------------------------------------------------------- writing

  /** Field numbers in use are small; the tag is `number << 3 | wireType`. */
  function Tag(number: nat, wireType: nat): seq<byte> {
    Varint(8 * number + wireType)
  }

  function LengthField(number: nat, data: seq<byte>): seq<byte> {
    Tag(number, 2) + Varint(|data|) + data
  }

  function VarintField(number: nat, v: u64): seq<byte> {
    Tag(number, 0) + Varint(v)
  }

  predicate FieldNumber(number: nat) {
    number < 0x2000_0000
  }

  method WriteTag(out: ByteBuffer, number: nat, wireType: nat)
    requires FieldNumber(number) && wireType < 8
    modifies out
    ensures out.bytes == old(out.bytes) + Tag(number, wireType)
  {
    WriteVarint(out, 8 * number + wireType);
  }

  /** Strings, byte vectors and embedded messages are all written this way. */
  method WriteBytes(out: ByteBuffer, number: nat, data: Blob)
    requires FieldNumber(number)
    modifies out
    ensures out.bytes == old(out.bytes) + LengthField(number, data)
  {
    WriteTag(out, number, 2);
    WriteVarint(out, |data|);
    out.PutSlice(data);
    assert out.bytes == old(out.bytes) + (Tag(number, 2) + Varint(|data|) + data);
  }

  method WriteInt32(out: ByteBuffer, number: nat, v: i32)
    requires FieldNumber(number)
    modifies out
    ensures out.bytes == old(out.bytes) + VarintField(number, AsU64(v))
    ensures v >= 0 ==> out.bytes == old(out.bytes) + (Tag(number, 0) + Varint(v))
    ensures v < 0 ==> out.bytes == old(out.bytes) + (Tag(number, 0) + Varint(v + 0x1_0000_0000_0000_0000))
  {
    WriteTag(out, number, 0);
    WriteVarint(out, AsU64(v));
  }

  method WriteBool(out: ByteBuffer, number: nat, v: bool)
    requires FieldNumber(number)
    modifies out
    ensures out.bytes == old(out.bytes) + VarintField(number, if v then 1 else 0)
  {
    WriteTag(out, number, 0);
    WriteVarint(out, if v then 1 else 0);
  }

  // ---------------------------------------------------------------- parsing

  /** The next `n` bytes as the data of a field. */
  function Take(s: seq<byte>, from: nat, n: nat, number: nat, wireType: nat): (r: Result<(Field, nat), ProtoError>)
    requires from <= |s| && n < U64
    ensures r.Ok? ==> r.value.1 == from + n <= |s|
  {
    if |s| - from < n then Err(UnexpectedEof) else Ok((Field(number, wireType, s[from..from + n]), from + n))
  }

  /** The field at the front of `s`, and how many bytes it takes. */
  function ParseField(s: seq<byte>): (r: Result<(Field, nat), ProtoError>)
    ensures r.Ok? ==> 1 <= r.value.1 <= |s|
  {
    match Read(s)
    case Err(e) => Err(e)
    case Ok(t) => ParseData(s, t.1, (t.0 / 8) % U32, t.0 % 8)
  }

  function ParseData(s: seq<byte>, from: nat, number: nat, wireType: nat): (r: Result<(Field, nat), ProtoError>)
    requires from <= |s|
    ensures r.Ok? ==> from <= r.value.1 <= |s|
  {
    if wireType == 0 then
      match Read(s[from..])
      case Err(e) => Err(e)
      case Ok(v) => VarintRoundTrip(v.0, []); Ok((Field(number, 0, Varint(v.0)), from + v.1))
    else if wireType == 1 then Take(s, from, 8, number, 1)
    else if wireType == 2 then
      match Read(s[from..])
      case Err(e) => Err(e)
      case Ok(v) => Take(s, from + v.1, v.0, number, 2)
    else if wireType == 5 then Take(s, from, 4, number, 5)
    else Err(InvalidWireType)
  }

  predicate IsVarintField(f: Field, number: nat, v: u64) {
    f.number == number && f.wireType == 0 && f.data == Varint(v)
  }

  /** How a field is read, case by case: the number is the tag without its three low bits, in 32 bits; those bits say
      whether the data is a varint, eight bytes, a length and that many bytes, or four bytes; there is no other type. */
  lemma FieldOutcomes(s: seq<byte>, tag: u64, n: nat)
    requires Read(s) == Ok((tag, n))
    ensures var r, number, rest := ParseField(s), (tag / 8) % 0x1_0000_0000, s[n..];
            && (tag % 8 == 0 ==>
                match Read(rest)
                case Err(e) => r == Err(e)
                case Ok(v) => r.Ok? && r.value.1 == n + v.1 && IsVarintField(r.value.0, number, v.0))
            && (tag % 8 == 1 ==>
                r == if |rest| < 8 then Err(UnexpectedEof) else Ok((Field(number, 1, rest[..8]), n + 8)))
            && (tag % 8 == 2 ==>
                match Read(rest)
                case Err(e) => r == Err(e)
                case Ok(l) =>
                  r == if |rest| - l.1 < l.0 then Err(UnexpectedEof)
                       else Ok((Field(number, 2, rest[l.1..l.1 + l.0]), n + l.1 + l.0)))
            && (tag % 8 == 5 ==>
                r == if |rest| < 4 then Err(UnexpectedEof) else Ok((Field(number, 5, rest[..4]), n + 4)))
            && (tag % 8 !in {0, 1, 2, 5} ==> r == Err(InvalidWireType))
  {
    var rest := s[n..];
    if tag % 8 == 2 && Read(rest).Ok? {
      var l := Read(rest).value;
      if |rest| - l.1 >= l.0 {
        assert rest[l.1..l.1 + l.0] == s[n + l.1..n + l.1 + l.0];
      }
    } else if tag % 8 == 1 && |rest| >= 8 {
      assert rest[..8] == s[n..n + 8];
    } else if tag % 8 == 5 && |rest| >= 4 {
      assert rest[..4] == s[n..n + 4];
    }
  }

  /** A field whose tag cannot be read is refused with the error of its tag. */
  lemma UnreadableTag(s: seq<byte>)
    requires Read(s).Err?
    ensures ParseField(s) == Err(Read(s).error)
  {
  }

  /** What a field means: bytes and strings need wire type 2, numbers wire type 0, strings well-formed bytes as well. */
  lemma FieldMeanings(f: Field)
    ensures AsBytes(f) == if f.wireType == 2 then Some(f.data) else None
    ensures AsText(f).Some? <==> f.wireType == 2 && Utf8(f.data)
    ensures AsText(f).Some? ==> AsText(f).value == f.data
    ensures AsVarint(f).Some? <==> f.wireType == 0 && Read(f.data).Ok?
    ensures AsVarint(f).Some? ==> AsVarint(f).value == Read(f.data).value.0
    ensures AsInt32(f).Some? <==> AsVarint(f).Some?
    ensures AsInt32(f).Some? ==> (AsVarint(f).value - AsInt32(f).value) % 0x1_0000_0000 == 0
  {
    if AsInt32(f).Some? {
      NarrowingIsCongruent(AsVarint(f).value, AsInt32(f).value);
    }
  }

  /** All the fields of a message, or the first error; each field takes at least one byte, so this ends. */
  function ParseMessage(s: seq<byte>): Result<seq<Field>, ProtoError>
    decreases |s|
  {
    if s == [] then Ok([])
    else match ParseField(s)
      case Err(e) => Err(e)
      case Ok(f) =>
        match ParseMessage(s[f.1..])
        case Err(e) => Err(e)
        case Ok(fs) => Ok([f.0] + fs)
  }

  method ParseNextField(cursor: Cursor) returns (r: Result<Field, ProtoError>)
    requires cursor.Valid() && cursor.position < |cursor.data|
    modifies cursor
    ensures cursor.Valid()
    ensures match ParseField(cursor.data[old(cursor.position)..])
            case Ok(f) => r == Ok(f.0) && cursor.position == old(cursor.position) + f.1
            case Err(e) => r == Err(e)
  {
    ghost var start := cursor.position;
    ghost var s := cursor.data[start..];
    var tag := ReadVarint(cursor);
    if tag.Err? {
      return Err(tag.error);
    }
    var number, wireType := (tag.value / 8) % U32, tag.value % 8;
    r := ParseFieldData(cursor, number, wireType, start);
  }

  method ParseFieldData(cursor: Cursor, number: nat, wireType: nat, ghost start: nat)
    returns (r: Result<Field, ProtoError>)
    requires cursor.Valid() && start <= cursor.position
    modifies cursor
    ensures cursor.Valid()
    ensures match ParseData(cursor.data[start..], old(cursor.position) - start, number, wireType)
            case Ok(f) => r == Ok(f.0) && cursor.position == start + f.1
            case Err(e) => r == Err(e)
  {
    ghost var s, from := cursor.data[start..], cursor.position - start;
    assert s[from..] == cursor.data[cursor.position..];
    if wireType == 0 {
      var v := ReadVarint(cursor);
      if v.Err? {
        return Err(v.error);
      }
      VarintRoundTrip(v.value, []);
      var tmp := new ByteBuffer();
      WriteVarint(tmp, v.value);
      assert tmp.bytes == Varint(v.value);
      r := Ok(Field(number, 0, tmp.bytes));
    } else if wireType == 1 {
      r := TakeExact(cursor, 8, number, 1, start);
    } else if wireType == 2 {
      var len := ReadVarint(cursor);
      if len.Err? {
        return Err(len.error);
      }
      r := TakeExact(cursor, len.value, number, 2, start);
    } else if wireType == 5 {
      r := TakeExact(cursor, 4, number, 5, start);
    } else {
      r := Err(InvalidWireType);
    }
  }

  method TakeExact(cursor: Cursor, n: nat, number: nat, wireType: nat, ghost start: nat)
    returns (r: Result<Field, ProtoError>)
    requires cursor.Valid() && start <= cursor.position && n < U64
    modifies cursor
    ensures cursor.Valid()
    ensures match Take(cursor.data[start..], old(cursor.position) - start, n, number, wireType)
            case Ok(f) => r == Ok(f.0) && cursor.position == start + f.1
            case Err(e) => r == Err(e)
  {
    ghost var from := cursor.position - start;
    var data := cursor.ReadExact(n);
    if data.Err? {
      return Err(data.error);
    }
    assert cursor.data[start..][from..from + n] == data.value;
    r := Ok(Field(number, wireType, data.value));
  }

  /** The first `position` bytes have been split into `fields`. */
  ghost predicate SplitSoFar(buf: seq<byte>, position: nat, fields: seq<Field>) {
    position <= |buf| && ParseMessage(buf) == Prepend(fields, ParseMessage(buf[position..]))
  }

  lemma SplitOneMore(buf: seq<byte>, position: nat, fields: seq<Field>)
    requires SplitSoFar(buf, position, fields) && position < |buf|
    ensures match ParseField(buf[position..])
            case Ok(f) => SplitSoFar(buf, position + f.1, fields + [f.0])
            case Err(e) => ParseMessage(buf) == Err(e)
  {
    var s := buf[position..];
    match ParseField(s)
    case Ok(f) =>
      assert s[f.1..] == buf[position + f.1..];
      assert ParseMessage(s) == Prepend([f.0], ParseMessage(s[f.1..]));
      PrependMany(fields, [f.0], ParseMessage(s[f.1..]));
    case Err(_) =>
  }

  lemma SplitAll(buf: seq<byte>, fields: seq<Field>)
    requires SplitSoFar(buf, |buf|, fields)
    ensures ParseMessage(buf) == Ok(fields)
  {
    assert buf[|buf|..] == [];
    assert fields + [] == fields;
  }

  lemma SplitNone(buf: seq<byte>)
    ensures SplitSoFar(buf, 0, [])
  {
    assert buf[0..] == buf;
    PrependNone(ParseMessage(buf));
  }

  /** The loop that splits a message into fields. */
  method ParseFields(buf: seq<byte>) returns (r: Result<seq<Field>, ProtoError>)
    ensures r == ParseMessage(buf)
  {
    var fields := [];
    var cursor := new Cursor(buf);
    SplitNone(buf);
    while cursor.position < |buf|
      invariant cursor.Valid() && cursor.data == buf && SplitSoFar(buf, cursor.position, fields)
      decreases |buf| - cursor.position
    {
      SplitOneMore(buf, cursor.position, fields);
      var f := ParseNextField(cursor);
      if f.Err? {
        return Err(f.error);
      }
      fields := fields + [f.value];
    }
    SplitAll(buf, fields);
    r := Ok(fields);
  }

  /** Fields already parsed, in front of the outcome for the rest. */
  function Prepend(fs: seq<Field>, r: Result<seq<Field>, ProtoError>): Result<seq<Field>, ProtoError> {
    match r
    case Err(e) => Err(e)
    case Ok(gs) => Ok(fs + gs)
  }

  lemma PrependNone(r: Result<seq<Field>, ProtoError>)
    ensures Prepend([], r) == r
  {
    if r.Ok? {
      assert [] + r.value == r.value;
    }
  }

  // ---------------------------------------------------------------- laws of parsing

  lemma FieldIgnoresWhatFollows(s: seq<byte>, more: seq<byte>)
    requires ParseField(s).Ok?
    ensures ParseField(s + more) == ParseField(s)
  {
    ReadIgnoresWhatFollows(s, more);
    var (tag, from) := Read(s).value;
    DataIgnoresWhatFollows(s, more, from, (tag / 8) % U32, tag % 8);
  }

  lemma DataIgnoresWhatFollows(s: seq<byte>, more: seq<byte>, from: nat, number: nat, wireType: nat)
    requires from <= |s| && ParseData(s, from, number, wireType).Ok?
    ensures ParseData(s + more, from, number, wireType) == ParseData(s, from, number, wireType)
  {
    assert (s + more)[from..] == s[from..] + more;
    if wireType == 0 || wireType == 2 {
      ReadIgnoresWhatFollows(s[from..], more);
    }
    var (f, end) := ParseData(s, from, number, wireType).value;
    if wireType != 0 {
      assert (s + more)[end - |f.data|..end] == s[end - |f.data|..end];
    }
  }

  /** The concatenation law: if `a` parses, parsing `a + b` gives the fields of `a` and then those of `b`, or `b`'s
      error. */
  lemma {:induction false} ParseConcatenation(a: seq<byte>, b: seq<byte>)
    requires ParseMessage(a).Ok?
    ensures ParseMessage(a + b) == Prepend(ParseMessage(a).value, ParseMessage(b))
    decreases |a|
  {
    if a == [] {
      assert a + b == b;
      PrependNone(ParseMessage(b));
    } else {
      var (f, n) := ParseField(a).value;
      FieldIgnoresWhatFollows(a, b);
      ParseConcatenation(a[n..], b);
      assert (a + b)[n..] == a[n..] + b;
      assert ParseMessage(a + b) == Prepend([f], ParseMessage(a[n..] + b));
      PrependMany([f], ParseMessage(a[n..]).value, ParseMessage(b));
    }
  }

  lemma PrependMany(fs: seq<Field>, gs: seq<Field>, r: Result<seq<Field>, ProtoError>)
    ensures Prepend(fs, Prepend(gs, r)) == Prepend(fs + gs, r)
  {
    if r.Ok? {
      assert fs + (gs + r.value) == fs + gs + r.value;
    }
  }

  lemma TagReads(number: nat, wireType: nat, rest: seq<byte>)
    requires FieldNumber(number) && wireType < 8
    ensures ParseField(Tag(number, wireType) + rest)
            == ParseData(Tag(number, wireType) + rest, |Tag(number, wireType)|, number, wireType)
    ensures (Tag(number, wireType) + rest)[|Tag(number, wireType)|..] == rest
  {
    VarintRoundTrip(8 * number + wireType, rest);
    TagParts(number, wireType);
  }

  lemma TagParts(number: nat, wireType: nat)
    requires FieldNumber(number) && wireType < 8
    ensures ((8 * number + wireType) / 8) % U32 == number && (8 * number + wireType) % 8 == wireType
  {
  }

  lemma LengthFieldParses(number: nat, data: Blob, rest: seq<byte>)
    requires FieldNumber(number)
    ensures ParseField(LengthField(number, data) + rest) == Ok((Field(number, 2, data), |LengthField(number, data)|))
  {
    var tag, len := Tag(number, 2), Varint(|data|);
    var after := len + (data + rest);
    TagReads(number, 2, after);
    VarintRoundTrip(|data|, data + rest);
    var s := tag + after;
    LengthFieldData(tag, len, data, rest);
    assert ParseData(s, |tag|, number, 2) == Take(s, |tag| + |len|, |data|, number, 2);
  }

  lemma LengthFieldData(tag: seq<byte>, len: seq<byte>, data: seq<byte>, rest: seq<byte>)
    ensures tag + len + data + rest == tag + (len + (data + rest))
    ensures (tag + (len + (data + rest)))[|tag| + |len|..|tag| + |len| + |data|] == data
  {
  }

  lemma VarintFieldParses(number: nat, v: u64, rest: seq<byte>)
    requires FieldNumber(number)
    ensures |Varint(v)| < U64
    ensures ParseField(VarintField(number, v) + rest) == Ok((Field(number, 0, Varint(v)), |VarintField(number, v)|))
  {
    VarintRoundTrip(v, rest);
    var tag, after := Tag(number, 0), Varint(v) + rest;
    TagReads(number, 0, after);
    Reassociate(tag, Varint(v), rest);
    VarintDataParses(tag + after, |tag|, number, v, rest);
  }

  lemma VarintDataParses(s: seq<byte>, from: nat, number: nat, v: u64, rest: seq<byte>)
    requires from <= |s| && s[from..] == Varint(v) + rest
    ensures |Varint(v)| < U64 && ParseData(s, from, number, 0) == Ok((Field(number, 0, Varint(v)), from + |Varint(v)|))
  {
    VarintRoundTrip(v, rest);
  }

  lemma Reassociate(a: seq<byte>, b: seq<byte>, c: seq<byte>)
    ensures a + b + c == a + (b + c)
  {
  }

  // ---------------------------------------------------------------- fields as values

  /** A field of one of the two kinds the encoders write. */
  datatype Item = Bytes(number: nat, data: Blob) | Number(number: nat, v: u64)

  function EncodeItem(i: Item): (s: seq<byte>) {
    match i
    case Bytes(n, data) => LengthField(n, data)
    case Number(n, v) => VarintField(n, v)
  }

  function Flatten(parts: seq<seq<byte>>): seq<byte> {
    if parts == [] then [] else parts[0] + Flatten(parts[1..])
  }

  function EncodeEach(items: seq<Item>): (parts: seq<seq<byte>>)
    ensures |parts| == |items| && forall i :: 0 <= i < |items| ==> parts[i] == EncodeItem(items[i])
  {
    seq(|items|, i requires 0 <= i < |items| => EncodeItem(items[i]))
  }

  function EncodeItems(items: seq<Item>): seq<byte> {
    Flatten(EncodeEach(items))
  }

  function FieldOf(i: Item): Field {
    match i
    case Bytes(n, data) => Field(n, 2, data)
    case Number(n, v) => VarintRoundTrip(v, []); Field(n, 0, Varint(v))
  }

  function FieldsOf(items: seq<Item>): (fs: seq<Field>)
    ensures |fs| == |items|
  {
    if items == [] then [] else [FieldOf(items[0])] + FieldsOf(items[1..])
  }

  ghost predicate Numbered(items: seq<Item>) {
    forall i :: 0 <= i < |items| ==> FieldNumber(items[i].number)
  }

  lemma {:induction false} ItemsParse(items: seq<Item>)
    requires Numbered(items)
    ensures ParseMessage(EncodeItems(items)) == Ok(FieldsOf(items))
  {
    if items != [] {
      var i, rest := items[0], EncodeItems(items[1..]);
      ItemsParse(items[1..]);
      assert EncodeEach(items)[1..] == EncodeEach(items[1..]);
      assert EncodeItems(items) == EncodeItem(i) + rest;
      match i {
        case Bytes(n, data) => LengthFieldParses(n, data, rest);
        case Number(n, v) => VarintFieldParses(n, v, rest);
      }
      assert EncodeItems(items)[|EncodeItem(i)|..] == rest;
      assert |EncodeItem(i)| > 0;
    }
  }

  lemma {:induction false} FlattenAppend(a: seq<seq<byte>>, b: seq<seq<byte>>)
    ensures Flatten(a + b) == Flatten(a) + Flatten(b)
  {
    if a == [] {
      assert a + b == b;
    } else {
      FlattenAppend(a[1..], b);
      assert (a + b)[0] == a[0] && (a + b)[1..] == a[1..] + b;
      assert Flatten(a + b) == a[0] + Flatten(a[1..] + b);
      Reassociate(a[0], Flatten(a[1..]), Flatten(b));
    }
  }

  lemma EncodeEachAppend(a: seq<Item>, b: seq<Item>)
    ensures EncodeEach(a + b) == EncodeEach(a) + EncodeEach(b)
  {
    var whole, parts := EncodeEach(a + b), EncodeEach(a) + EncodeEach(b);
    forall i | 0 <= i < |a| + |b|
      ensures whole[i] == parts[i]
    {
      assert (a + b)[i] == if i < |a| then a[i] else b[i - |a|];
    }
  }

  lemma EncodeItemsAppend(a: seq<Item>, b: seq<Item>)
    ensures EncodeItems(a + b) == EncodeItems(a) + EncodeItems(b)
  {
    EncodeEachAppend(a, b);
    FlattenAppend(EncodeEach(a), EncodeEach(b));
  }

  lemma EncodeOne(item: Item)
    ensures EncodeItems([item]) == EncodeItem(item)
  {
    assert EncodeEach([item])[1..] == EncodeEach([]);
    assert EncodeItems([item]) == EncodeItem(item) + Flatten(EncodeEach([]));
  }

  lemma {:induction false} FieldsOfAppend(a: seq<Item>, b: seq<Item>)
    ensures FieldsOf(a + b) == FieldsOf(a) + FieldsOf(b)
  {
    if a == [] {
      assert a + b == b;
    } else {
      FieldsOfAppend(a[1..], b);
      assert (a + b)[1..] == a[1..] + b;
    }
  }

  function AsText(f: Field): Option<Text> {
    if f.wireType == 2 && Utf8(f.data) then Some(f.data) else None
  }

  function AsBytes(f: Field): Option<Blob> {
    if f.wireType == 2 then Some(f.data) else None
  }

  function AsVarint(f: Field): Option<u64> {
    if f.wireType != 0 then None
    else match Read(f.data)
      case Ok(v) => Some(v.0)
      case Err(_) => None
  }

  function AsInt32(f: Field): Option<i32> {
    match AsVarint(f)
    case Some(v) => Some(AsI32(v))
    case None => None
  }

  lemma NumberReadsBack(n: nat, v: u64)
    ensures AsVarint(FieldOf(Number(n, v))) == Some(v)
  {
    VarintRoundTrip(v, []);
    assert Varint(v) + [] == Varint(v);
  }

  lemma Int32ReadsBack(n: nat, v: i32)
    ensures AsInt32(FieldOf(Number(n, AsU64(v)))) == Some(v)
  {
    NumberReadsBack(n, AsU64(v));
    Int32RoundTrip(v);
  }

  // ---------------------------------------------------------------- decoding

  /** Taking fields into a message one after the other, stopping at the first error. */
  function Fold<M>(take: (M, Field) -> Result<M, ProtoError>, m: M, fields: seq<Field>): Result<M, ProtoError> {
    if fields == [] then Ok(m)
    else match take(m, fields[0])
      case Err(e) => Err(e)
      case Ok(next) => Fold(take, next, fields[1..])
  }

  function Decode<M>(take: (M, Field) -> Result<M, ProtoError>, empty: M, bytes: seq<byte>): Result<M, ProtoError> {
    match ParseMessage(bytes)
    case Err(e) => Err(e)
    case Ok(fields) => Fold(take, empty, fields)
  }

  /** The loop every message's decoder runs. */
  method DecodeLoop<M>(take: (M, Field) -> Result<M, ProtoError>, empty: M, bytes: seq<byte>)
    returns (r: Result<M, ProtoError>)
    ensures r == Decode(take, empty, bytes)
  {
    var parsed := ParseFields(bytes);
    if parsed.Err? {
      return Err(parsed.error);
    }
    var fields, msg := parsed.value, empty;
    assert fields[0..] == fields;
    for i := 0 to |fields|
      invariant Fold(take, empty, fields) == Fold(take, msg, fields[i..])
    {
      assert fields[i..][1..] == fields[i + 1..];
      var next := take(msg, fields[i]);
      if next.Err? {
        return Err(next.error);
      }
      msg := next.value;
    }
    r := Ok(msg);
  }

  lemma {:induction false} FoldAppend<M>(take: (M, Field) -> Result<M, ProtoError>, m: M, a: seq<Field>, b: seq<Field>)
    ensures Fold(take, m, a + b) == match Fold(take, m, a) case Err(e) => Err(e) case Ok(n) => Fold(take, n, b)
    decreases |a|
  {
    if a == [] {
      assert a + b == b;
    } else {
      assert (a + b)[1..] == a[1..] + b;
      var next := take(m, a[0]);
      if next.Ok? {
        FoldAppend(take, next.value, a[1..], b);
      }
    }
  }

  /** Decoding items one group after another. */
  lemma FoldItems<M>(take: (M, Field) -> Result<M, ProtoError>, m: M, a: seq<Item>, n: M, b: seq<Item>)
    requires Fold(take, m, FieldsOf(a)) == Ok(n)
    ensures Fold(take, m, FieldsOf(a + b)) == Fold(take, n, FieldsOf(b))
  {
    FieldsOfAppend(a, b);
    FoldAppend(take, m, FieldsOf(a), FieldsOf(b));
  }

  lemma DecodeItems<M>(take: (M, Field) -> Result<M, ProtoError>, empty: M, items: seq<Item>)
    requires Numbered(items)
    ensures Decode(take, empty, EncodeItems(items)) == Fold(take, empty, FieldsOf(items))
  {
    ItemsParse(items);
  }
}
