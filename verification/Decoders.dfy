/** The decoders as they run: a cursor that advances over the body. Each is proved equal to
    the parser of the same name, so it is total on every byte sequence. */
module Decoders {
  import opened Bytes
  import opened Topics
  import opened Wire
  import opened Framing
  import opened Packets

  /** What a cursor operation did: its result, and where it left the cursor on success. */
  ghost predicate Did<T>(spec: Result<(T, nat)>, r: Result<T>, pos: nat)
  {
    match spec
    case Ok((v, p)) => r == Ok(v) && pos == p
    case Err(e) => r == Err(e)
  }

  class SliceReader {
    const data: seq<Byte>
    var pos: nat

    constructor (b: seq<Byte>)
      ensures data == b && pos == 0
    {
      data, pos := b, 0;
    }

    /** Negative once the cursor has been pushed past the end. */
    function Remaining(): int
      reads this
    {
      |data| - pos
    }

    /** `io.ReadFull` on this reader. */
    method ReadBytes(n: nat) returns (r: Result<seq<Byte>>)
      modifies this
      ensures Did(BytesAt(data, old(pos), n), r, pos)
    {
      if pos >= |data| { return Err(Eof); }
      if |data| - pos < n {
        pos := |data|;
        return Err(UnexpectedEof);
      }
      r := Ok(data[pos..pos + n]);
      pos := pos + n;
    }

    method ReadByte() returns (r: Result<Byte>)
      modifies this
      ensures Did(ByteAt(data, old(pos)), r, pos)
    {
      var b := ReadBytes(1);
      if b.Err? { return Err(b.error); }
      r := Ok(b.value[0]);
    }

    method ReadUint16() returns (r: Result<nat>)
      modifies this
      ensures Did(U16At(data, old(pos)), r, pos)
    {
      var b := ReadBytes(2);
      if b.Err? { return Err(b.error); }
      r := Ok(FromU16(b.value));
    }

    method ReadBlock() returns (r: Result<seq<Byte>>)
      modifies this
      ensures Did(BlockAt(data, old(pos)), r, pos)
    {
      var n := ReadUint16();
      if n.Err? { return Err(n.error); }
      if n.value == 0 { return Ok([]); }
      r := ReadBytes(n.value);
    }

    method ReadVarInt() returns (r: Result<nat>)
      modifies this
      ensures Did(VarIntAt(data, old(pos)), r, pos)
    {
      ghost var s := Rest(data, pos);
      ScanIsParse(s, 4, 0, 1);
      var mult: nat, val: nat := 1, 0;
      for i := 0 to 4
        invariant pos == old(pos) + i && i <= |s|
        invariant ScanVarInt(s, 4, 0, 1) == Used(i, ScanVarInt(s[i..], 4 - i, val, mult))
      {
        if Remaining() < 1 { return Err(Malformed); }
        var digit: nat := data[pos] as int;
        assert s[i..][1..] == s[i + 1..] && digit == s[i] as int;
        pos := pos + 1;
        val, mult := AddDigit(val, digit, mult), mult * 128;
        if digit < 128 { return Ok(val); }
      }
      r := Err(InvalidVarInt);
    }

    method ReadProps(kind: PropKind) returns (r: Result<Props>)
      modifies this
      ensures Did(PropsAt(kind, data, old(pos)), r, pos)
    {
      hide VarIntAt;
      var n := ReadVarInt();
      if n.Err? { return Err(n.error); }
      var props: Props := map[];
      var start := pos;
      while pos - start < n.value
        invariant pos >= start
        invariant PropsFrom(kind, data, start + n.value, start, map[]) == PropsFrom(kind, data, start + n.value, pos, props)
        decreases start + n.value - pos
      {
        if Remaining() < 1 { return Err(Malformed); }
        var id := data[pos];
        pos := pos + 1;
        var w := Width(kind, id);
        if w.None? {
          pos := start + n.value;
          return Ok(props);
        }
        if Remaining() < w.value { return Err(Malformed); }
        props := props[id := data[pos..pos + w.value]];
        pos := pos + w.value;
      }
      r := Ok(props);
    }

    /** The length in front of a skipped property block. */
    method ReadSkipLength() returns (r: Result<nat>)
      modifies this
      ensures Did(Used(old(pos), SkipLength(Rest(data, old(pos)), 4)), r, pos)
    {
      ghost var s := Rest(data, pos);
      SkipScanIs(s, 4, 0, 1);
      var mult: nat, propLen: nat := 1, 0;
      var i: nat := 0;
      while i < 4
        invariant i <= 4 && i <= |s| && pos == old(pos) + i
        invariant SkipScan(s, 4, 0, 1) == Used(i, SkipScan(s[i..], 4 - i, propLen, mult))
      {
        var b := ReadByte();
        if b.Err? { return Err(b.error); }
        assert s[i..][1..] == s[i + 1..] && b.value == s[i];
        propLen, mult := AddDigit(propLen, b.value as int, mult), mult * 128;
        i := i + 1;
        if b.value < 128 { break; }
      }
      assert SkipScan(s, 4, 0, 1) == Ok((propLen, i));
      r := Ok(propLen);
    }

    method SkipProps() returns (r: Result<()>)
      modifies this
      ensures match SkipPropsAt(data, old(pos))
              case Ok(p) => r == Ok(()) && pos == p
              case Err(e) => r == Err(e)
    {
      hide SkipLength, Rest;
      var propLen := ReadSkipLength();
      if propLen.Err? { return Err(propLen.error); }
      if propLen.value == 0 { return Ok(()); }
      pos := pos + propLen.value;
      if pos > |data| { return Err(Malformed); }
      r := Ok(());
    }
  }

  /** The digit loop of `skipProps`. */
  function SkipScan(b: seq<Byte>, left: nat, val: nat, mult: nat): Result<(nat, nat)>
  {
    if left == 0 then Ok((val, 0))
    else if b == [] then Err(Eof)
    else
      var sum := AddDigit(val, b[0] as int, mult);
      if b[0] < 128 then Ok((sum, 1)) else Used(1, SkipScan(b[1..], left - 1, sum, mult * 128))
  }

  lemma {:induction false} SkipScanIs(b: seq<Byte>, left: nat, val: nat, mult: nat)
    ensures match SkipLength(b, left)
            case Ok((v, n)) => SkipScan(b, left, val, mult) == Ok((val + mult * v, n))
            case Err(e) => SkipScan(b, left, val, mult) == Err(e)
  {
    if left > 0 && b != [] {
      var d := b[0] as int;
      if d >= 128 {
        SkipScanIs(b[1..], left - 1, AddDigit(val, d, mult), mult * 128);
        if SkipLength(b[1..], left - 1).Ok? {
          HighDigit(val, mult, d, SkipLength(b[1..], left - 1).value.0);
        }
      }
    }
  }

  method DecodePublish(version: nat, fh: FixedHeader, body: seq<Byte>) returns (r: Result<Publish>)
    ensures r == ParsePublish(version, fh.flags, body)
  {
    hide BlockAt, U16At, PropsAt, ValidTopicName;
    var reader := new SliceReader(body);
    var dup, qos, retain := fh.flags / 8 % 2 == 1, fh.flags / 2 % 4, fh.flags % 2 == 1;
    if qos > 2 { return Err(InvalidQoS); }
    if qos == 0 && dup { return Err(ProtocolViolation); }
    var topic := reader.ReadBlock();
    if topic.Err? { return Err(topic.error); }
    if version != V50 || topic.value != [] {
      if !ValidTopicName(topic.value) { return Err(InvalidTopic); }
    }
    var packetId: nat := 0;
    if qos > 0 {
      var id := reader.ReadUint16();
      if id.Err? { return Err(id.error); }
      packetId := id.value;
      if packetId == 0 { return Err(ZeroPacketId); }
    }
    var expiry: nat, topicAlias: nat := 0, 0;
    if version == V50 {
      var props := reader.ReadProps(GeneralProps);
      if props.Err? { return Err(props.error); }
      expiry := OrZero(Prop32(props.value, 0x02));
      topicAlias := OrZero(Prop16(props.value, 0x23));
      if topic.value == [] && topicAlias == 0 { return Err(ProtocolViolation); }
    }
    var payload: seq<Byte> := [];
    if reader.Remaining() > 0 { payload := reader.data[reader.pos..]; }
    assert payload == Rest(body, reader.pos);
    r := Ok(Publish(dup, qos, retain, topic.value, packetId, payload, expiry, topicAlias));
  }

  method DecodePacketId(body: seq<Byte>) returns (r: Result<nat>)
    ensures r == ParsePacketId(body)
  {
    if |body| < 2 { return Err(Malformed); }
    r := Ok(FromU16(body[..2]));
  }

  method DecodeSubscribe(version: nat, body: seq<Byte>) returns (r: Result<Subscribe>)
    ensures r == ParseSubscribe(version, body)
  {
    var reader := new SliceReader(body);
    var id := reader.ReadUint16();
    if id.Err? { return Err(id.error); }
    if version == V50 {
      var skipped := reader.SkipProps();
      if skipped.Err? { return Err(skipped.error); }
    }
    ghost var start := reader.pos;
    var subs: seq<Subscription> := [];
    PrependNone(SubsAt(body, start));
    while reader.Remaining() > 0
      invariant reader.data == body && fresh(reader)
      invariant SubsAt(body, start) == Prepend(subs, SubsAt(body, reader.pos))
      decreases reader.Remaining()
    {
      var filter := reader.ReadBlock();
      if filter.Err? { return Err(filter.error); }
      var options := reader.ReadByte();
      if options.Err? { return Err(options.error); }
      var sub := Subscription(filter.value, options.value as int % 4);
      PrependOne(subs, sub, SubsAt(body, reader.pos));
      subs := subs + [sub];
    }
    assert subs + [] == subs;
    if subs == [] { return Err(ProtocolViolation); }
    r := Ok(Subscribe(id.value, subs));
  }

  method DecodeUnsubscribe(version: nat, body: seq<Byte>) returns (r: Result<Unsubscribe>)
    ensures r == ParseUnsubscribe(version, body)
  {
    var reader := new SliceReader(body);
    var id := reader.ReadUint16();
    if id.Err? { return Err(id.error); }
    if version == V50 {
      var skipped := reader.SkipProps();
      if skipped.Err? { return Err(skipped.error); }
    }
    ghost var start := reader.pos;
    var filters: seq<Text> := [];
    PrependNone(FiltersAt(body, start));
    while reader.Remaining() > 0
      invariant reader.data == body && fresh(reader)
      invariant FiltersAt(body, start) == Prepend(filters, FiltersAt(body, reader.pos))
      decreases reader.Remaining()
    {
      var filter := reader.ReadBlock();
      if filter.Err? { return Err(filter.error); }
      PrependOne(filters, filter.value, FiltersAt(body, reader.pos));
      filters := filters + [filter.value];
    }
    assert filters + [] == filters;
    r := Ok(Unsubscribe(id.value, filters));
  }

  method DecodeDisconnect(version: nat, body: seq<Byte>) returns (r: Result<Disconnect>)
    ensures r == ParseDisconnect(version, body)
  {
    if version != V50 {
      if body != [] { return Err(ProtocolViolation); }
      return Ok(Disconnect(0, None));
    }
    if body == [] { return Ok(Disconnect(0, None)); }
    var reader := new SliceReader(body);
    var reason := reader.ReadByte();
    if reason.Err? { return Err(reason.error); }
    var props := reader.ReadProps(GeneralProps);
    if props.Err? { return Err(props.error); }
    if reader.Remaining() != 0 { return Err(Malformed); }
    r := Ok(Disconnect(reason.value as int, Prop32(props.value, 0x11)));
  }

  method DecodeConnect(body: seq<Byte>) returns (r: Result<Connect>)
    ensures r == ParseConnect(body)
  {
    var reader := new SliceReader(body);
    var name := reader.ReadBlock();
    if name.Err? { return Err(name.error); }
    if name.value != MQTT && name.value != MQISDP { return Err(UnsupportedVersion); }
    var version := reader.ReadByte();
    if version.Err? { return Err(version.error); }
    if version.value != 4 && version.value != 5 { return Err(UnsupportedVersion); }
    var v := version.value as int;
    var flags := reader.ReadByte();
    if flags.Err? { return Err(flags.error); }
    var checked := ParseFlags(flags.value);
    if checked.Err? { return Err(checked.error); }
    var f := checked.value;
    var keepAlive := reader.ReadUint16();
    if keepAlive.Err? { return Err(keepAlive.error); }
    var props: Props := map[];
    if v == V50 {
      var ps := reader.ReadProps(ConnectProps);
      if ps.Err? { return Err(ps.error); }
      props := ps.value;
      if Prop16(props, 0x21) == Some(0) { return Err(ProtocolViolation); }
      if Prop32(props, 0x27) == Some(0) { return Err(ProtocolViolation); }
    }
    var clientId := reader.ReadBlock();
    if clientId.Err? { return Err(clientId.error); }
    var will := DecodeWill(reader, v, f);
    if will.Err? { return Err(will.error); }
    var username := DecodeOptional(reader, f.username);
    if username.Err? { return Err(username.error); }
    var password := DecodeOptional(reader, f.password);
    if password.Err? { return Err(password.error); }
    r := Ok(Connect(v, f.clean, keepAlive.value, OrZero(Prop32(props, 0x11)), OrZero(Prop16(props, 0x21)),
                    OrZero(Prop32(props, 0x27)), OrZero(Prop16(props, 0x22)), clientId.value, will.value, username.value, password.value));
  }

  method DecodeWill(reader: SliceReader, version: nat, f: Flags) returns (r: Result<Option<Will>>)
    modifies reader
    ensures Did(WillAt(version, f, reader.data, old(reader.pos)), r, reader.pos)
  {
    if !f.will { return Ok(None); }
    if version == V50 {
      var skipped := reader.SkipProps();
      if skipped.Err? { return Err(skipped.error); }
    }
    var topic := reader.ReadBlock();
    if topic.Err? { return Err(topic.error); }
    var payload := reader.ReadBlock();
    if payload.Err? { return Err(payload.error); }
    r := Ok(Some(Will(topic.value, payload.value, f.willQos, f.willRetain)));
  }

  method DecodeOptional(reader: SliceReader, present: bool) returns (r: Result<Option<seq<Byte>>>)
    modifies reader
    ensures Did(OptionalBlockAt(present, reader.data, old(reader.pos)), r, reader.pos)
  {
    if !present { return Ok(None); }
    var b := reader.ReadBlock();
    if b.Err? { return Err(b.error); }
    r := Ok(Some(b.value));
  }
}
