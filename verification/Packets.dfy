/** MQTT packet bodies: parsers as functions of the bytes and a position, and the encoders
    they undo. A position may lie past the end of the data, as the source's cursor can. */
module Packets {
  import opened Bytes
  import opened Topics
  import opened Wire
  import opened Framing

  // ----- reading at a position --------------------------------------------------

  function Rest(data: seq<Byte>, pos: nat): seq<Byte>
  {
    if pos <= |data| then data[pos..] else []
  }

  function BytesAt(data: seq<Byte>, pos: nat, n: nat): Result<(seq<Byte>, nat)>
  {
    if pos >= |data| then Err(Eof)
    else if |data| - pos < n then Err(UnexpectedEof)
    else Ok((data[pos..pos + n], pos + n))
  }

  function U16At(data: seq<Byte>, pos: nat): (r: Result<(nat, nat)>)
    ensures r.Ok? ==> r.value.0 < 65536
  {
    var b :- BytesAt(data, pos, 2);
    Ok((FromU16(b.0), b.1))
  }

  function ByteAt(data: seq<Byte>, pos: nat): Result<(Byte, nat)>
  {
    var b :- BytesAt(data, pos, 1);
    Ok((b.0[0], b.1))
  }

  /** A length-prefixed block; an empty one reads nothing after its length. */
  function BlockAt(data: seq<Byte>, pos: nat): Result<(seq<Byte>, nat)>
  {
    var n :- U16At(data, pos);
    if n.0 == 0 then Ok(([], n.1)) else BytesAt(data, n.1, n.0)
  }

  function VarIntAt(data: seq<Byte>, pos: nat): Result<(nat, nat)>
  {
    Used(pos, ParseVarInt(Rest(data, pos), 4))
  }

  // ----- property blocks --------------------------------------------------------

  type Props = map<Byte, seq<Byte>>

  datatype PropKind = GeneralProps | ConnectProps

  /** The value width of the recognised properties. */
  function Width(kind: PropKind, id: Byte): Option<nat>
  {
    match kind
    case GeneralProps =>
      if id == 0x02 || id == 0x11 then Some(4) else if id == 0x23 then Some(2) else None
    case ConnectProps =>
      if id == 0x11 || id == 0x27 then Some(4) else if id == 0x21 || id == 0x22 then Some(2) else None
  }

  /** The property loop: an unknown property skips to the declared end of the block, even if
      that lies past the data. */
  function PropsFrom(kind: PropKind, data: seq<Byte>, end: nat, pos: nat, acc: Props): Result<(Props, nat)>
    decreases if pos < end then end - pos else 0
  {
    if pos >= end then Ok((acc, pos))
    else if pos >= |data| then Err(Malformed)
    else
      match Width(kind, data[pos])
      case None => Ok((acc, end))
      case Some(w) =>
        if |data| - (pos + 1) < w then Err(Malformed)
        else PropsFrom(kind, data, end, pos + 1 + w, acc[data[pos] := data[pos + 1..pos + 1 + w]])
  }

  function PropsAt(kind: PropKind, data: seq<Byte>, pos: nat): Result<(Props, nat)>
  {
    var n :- VarIntAt(data, pos);
    PropsFrom(kind, data, n.1 + n.0, n.1, map[])
  }

  /** The length reader of `skipProps`: like the variable byte integer, but four continued
      digits are accepted. */
  function SkipLength(b: seq<Byte>, left: nat): Result<(nat, nat)>
  {
    if left == 0 then Ok((0, 0))
    else if b == [] then Err(Eof)
    else if b[0] < 128 then Ok((b[0] as int, 1))
    else
      var rest :- SkipLength(b[1..], left - 1);
      Ok((b[0] as int - 128 + 128 * rest.0, rest.1 + 1))
  }

  function SkipPropsAt(data: seq<Byte>, pos: nat): Result<nat>
  {
    var n :- Used(pos, SkipLength(Rest(data, pos), 4));
    if n.0 == 0 then Ok(n.1)
    else if n.1 + n.0 > |data| then Err(Malformed)
    else Ok(n.1 + n.0)
  }

  function Prop16(props: Props, id: Byte): Option<nat>
  {
    if id in props && |props[id]| == 2 then Some(FromU16(props[id])) else None
  }

  function Prop32(props: Props, id: Byte): Option<nat>
  {
    if id in props && |props[id]| == 4 then Some(FromU32(props[id])) else None
  }

  function OrZero(o: Option<nat>): nat
  {
    if o.Some? then o.value else 0
  }

  // ----- PUBLISH ----------------------------------------------------------------

  datatype Publish = Publish(
    dup: bool, qos: nat, retain: bool, topic: Text, packetId: nat,
    payload: seq<Byte>, expiry: nat, topicAlias: nat)

  function ParsePublish(version: nat, flags: nat, body: seq<Byte>): Result<Publish>
  {
    var dup, qos, retain := flags / 8 % 2 == 1, flags / 2 % 4, flags % 2 == 1;
    if qos > 2 then Err(InvalidQoS)
    else if qos == 0 && dup then Err(ProtocolViolation)
    else
      var topic :- BlockAt(body, 0);
      if (version != V50 || topic.0 != []) && !ValidTopicName(topic.0) then Err(InvalidTopic)
      else
        var id :- PublishId(qos, body, topic.1);
        var props :- PublishProps(version, body, id.1);
        var expiry, topicAlias := OrZero(Prop32(props.0, 0x02)), OrZero(Prop16(props.0, 0x23));
        if version == V50 && topic.0 == [] && topicAlias == 0 then Err(ProtocolViolation)
        else Ok(Publish(dup, qos, retain, topic.0, id.0, Rest(body, props.1), expiry, topicAlias))
  }

  function PublishId(qos: nat, body: seq<Byte>, pos: nat): Result<(nat, nat)>
  {
    if qos == 0 then Ok((0, pos))
    else
      var id :- U16At(body, pos);
      if id.0 == 0 then Err(ZeroPacketId) else Ok(id)
  }

  function PublishProps(version: nat, body: seq<Byte>, pos: nat): Result<(Props, nat)>
  {
    if version == V50 then PropsAt(GeneralProps, body, pos) else Ok((map[], pos))
  }

  // ----- acknowledgements, SUBSCRIBE, UNSUBSCRIBE, DISCONNECT -------------------

  function ParsePacketId(body: seq<Byte>): Result<nat>
  {
    if |body| < 2 then Err(Malformed) else Ok(FromU16(body[..2]))
  }

  datatype Subscription = Subscription(filter: Text, qos: nat)

  datatype Subscribe = Subscribe(packetId: nat, subs: seq<Subscription>)

  datatype Unsubscribe = Unsubscribe(packetId: nat, filters: seq<Text>)

  datatype Disconnect = Disconnect(reason: nat, expiry: Option<nat>)

  function Prepend<T>(xs: seq<T>, r: Result<seq<T>>): Result<seq<T>>
  {
    if r.Ok? then Ok(xs + r.value) else r
  }

  lemma PrependNone<T>(r: Result<seq<T>>)
    ensures Prepend([], r) == r
  {
    if r.Ok? { assert [] + r.value == r.value; }
  }

  lemma PrependOne<T>(xs: seq<T>, x: T, r: Result<seq<T>>)
    ensures Prepend(xs + [x], r) == Prepend(xs, Prepend([x], r))
  {
    if r.Ok? { assert xs + [x] + r.value == xs + ([x] + r.value); }
  }

  function SubsAt(data: seq<Byte>, pos: nat): Result<seq<Subscription>>
    decreases if pos < |data| then |data| - pos else 0
  {
    if pos >= |data| then Ok([])
    else
      var filter :- BlockAt(data, pos);
      var options :- ByteAt(data, filter.1);
      Prepend([Subscription(filter.0, options.0 as int % 4)], SubsAt(data, options.1))
  }

  function FiltersAt(data: seq<Byte>, pos: nat): Result<seq<Text>>
    decreases if pos < |data| then |data| - pos else 0
  {
    if pos >= |data| then Ok([])
    else
      var filter :- BlockAt(data, pos);
      Prepend([filter.0], FiltersAt(data, filter.1))
  }

  function HeaderAt(version: nat, body: seq<Byte>): Result<(nat, nat)>
  {
    var id :- U16At(body, 0);
    if version != V50 then Ok(id)
    else
      var pos :- SkipPropsAt(body, id.1);
      Ok((id.0, pos))
  }

  function ParseSubscribe(version: nat, body: seq<Byte>): Result<Subscribe>
  {
    var h :- HeaderAt(version, body);
    var subs :- SubsAt(body, h.1);
    if subs == [] then Err(ProtocolViolation) else Ok(Subscribe(h.0, subs))
  }

  function ParseUnsubscribe(version: nat, body: seq<Byte>): Result<Unsubscribe>
  {
    var h :- HeaderAt(version, body);
    var filters :- FiltersAt(body, h.1);
    Ok(Unsubscribe(h.0, filters))
  }

  function ParseDisconnect(version: nat, body: seq<Byte>): Result<Disconnect>
  {
    if version != V50 then (if body == [] then Ok(Disconnect(0, None)) else Err(ProtocolViolation))
    else if body == [] then Ok(Disconnect(0, None))
    else
      var reason :- ByteAt(body, 0);
      var props :- PropsAt(GeneralProps, body, reason.1);
      if props.1 != |body| then Err(Malformed)
      else Ok(Disconnect(reason.0 as int, Prop32(props.0, 0x11)))
  }

  // ----- CONNECT ----------------------------------------------------------------

  datatype Will = Will(topic: Text, payload: seq<Byte>, qos: nat, retain: bool)

  datatype Connect = Connect(
    version: nat, clean: bool, keepAlive: nat, expiry: nat, receiveMax: nat, maxPacket: nat,
    aliasMax: nat, clientId: Text, will: Option<Will>, username: Option<Text>, password: Option<seq<Byte>>)

  const MQTT: Text := [77, 81, 84, 84]
  const MQISDP: Text := [77, 81, 73, 115, 100, 112]

  predicate Bit(f: Byte, weight: nat)
    requires weight > 0
  {
    f as int / weight % 2 == 1
  }

  function WillQos(f: Byte): nat
  {
    f as int / 8 % 4
  }

  datatype Flags = Flags(clean: bool, will: bool, willQos: nat, willRetain: bool, username: bool, password: bool)

  /** The connect flags; some are refused, in the order the decoder checks them. */
  function ParseFlags(f: Byte): Result<Flags>
  {
    if Bit(f, 1) then Err(ProtocolViolation)
    else if !Bit(f, 4) && (WillQos(f) != 0 || Bit(f, 32)) then Err(ProtocolViolation)
    else if WillQos(f) > 2 then Err(InvalidQoS)
    else Ok(Flags(Bit(f, 2), Bit(f, 4), WillQos(f), Bit(f, 32), Bit(f, 128), Bit(f, 64)))
  }

  function ConnectPropsAt(version: nat, body: seq<Byte>, pos: nat): Result<(Props, nat)>
  {
    if version != V50 then Ok((map[], pos))
    else
      var props :- PropsAt(ConnectProps, body, pos);
      if Prop16(props.0, 0x21) == Some(0) || Prop32(props.0, 0x27) == Some(0) then Err(ProtocolViolation)
      else Ok(props)
  }

  function WillAt(version: nat, f: Flags, body: seq<Byte>, pos: nat): Result<(Option<Will>, nat)>
  {
    if !f.will then Ok((None, pos))
    else
      var start :- if version == V50 then SkipPropsAt(body, pos) else Ok(pos);
      var topic :- BlockAt(body, start);
      var payload :- BlockAt(body, topic.1);
      Ok((Some(Will(topic.0, payload.0, f.willQos, f.willRetain)), payload.1))
  }

  function OptionalBlockAt(present: bool, body: seq<Byte>, pos: nat): Result<(Option<seq<Byte>>, nat)>
  {
    if !present then Ok((None, pos))
    else
      var b :- BlockAt(body, pos);
      Ok((Some(b.0), b.1))
  }

  function ParseConnect(body: seq<Byte>): Result<Connect>
  {
    var name :- BlockAt(body, 0);
    if name.0 != MQTT && name.0 != MQISDP then Err(UnsupportedVersion)
    else
      var version :- ByteAt(body, name.1);
      if version.0 != 4 && version.0 != 5 then Err(UnsupportedVersion)
      else
        var flags :- ByteAt(body, version.1);
        var f :- ParseFlags(flags.0);
        var keepAlive :- U16At(body, flags.1);
        var props :- ConnectPropsAt(version.0 as int, body, keepAlive.1);
        ConnectPayloadAt(version.0 as int, f, keepAlive.0, props.0, body, props.1)
  }

  function ConnectPayloadAt(v: nat, f: Flags, keepAlive: nat, props: Props, body: seq<Byte>, pos: nat): Result<Connect>
  {
    var clientId :- BlockAt(body, pos);
    var will :- WillAt(v, f, body, clientId.1);
    var username :- OptionalBlockAt(f.username, body, will.1);
    var password :- OptionalBlockAt(f.password, body, username.1);
    Ok(Connect(v, f.clean, keepAlive, OrZero(Prop32(props, 0x11)), OrZero(Prop16(props, 0x21)),
               OrZero(Prop32(props, 0x27)), OrZero(Prop16(props, 0x22)), clientId.0, will.0, username.0, password.0))
  }

  // ----- encoders ---------------------------------------------------------------

  function PublishFlags(qos: nat, retain: bool, dup: bool): (f: nat)
    ensures f < 16
  {
    (if dup then 8 else 0) + qos % 4 * 2 + (if retain then 1 else 0)
  }

  /** Topic, packet identifier, property section and payload. */
  function PublishBody(topic: Text, payload: seq<Byte>, qos: nat, packetId: nat, section: seq<Byte>): seq<Byte>
    requires packetId < 65536
  {
    Str(topic) + (if qos > 0 then U16(packetId) else []) + section + payload
  }

  /** Version 5 packets carry a property length and the properties. */
  function Section(version: nat, props: seq<Byte>): seq<Byte>
  {
    if version == V50 then VarInt(|props|) + props else []
  }

  function PublishFrame(version: nat, topic: Text, payload: seq<Byte>, qos: nat, retain: bool, packetId: nat, dup: bool, props: seq<Byte>): Frame
    requires packetId < 65536
  {
    Frame(3, PublishFlags(qos, retain, dup), PublishBody(topic, payload, qos, packetId, Section(version, props)))
  }

  // ----- round trip -------------------------------------------------------------

  /** `x` stands in `data` at position `p`. */
  predicate Has(data: seq<Byte>, p: nat, x: seq<Byte>)
    decreases |x|
  {
    p + |x| <= |data| && (x != [] ==> data[p] == x[0] && Has(data, p + 1, x[1..]))
  }

  lemma {:induction false} HasIs(data: seq<Byte>, p: nat, x: seq<Byte>)
    ensures Has(data, p, x) <==> p + |x| <= |data| && data[p..p + |x|] == x
    decreases |x|
  {
    if x != [] && p + |x| <= |data| {
      HasIs(data, p + 1, x[1..]);
      var d := data[p..p + |x|];
      assert d == [data[p]] + data[p + 1..p + |x|] && x == [x[0]] + x[1..];
      assert d == x ==> d[0] == x[0] && d[1..] == x[1..];
    }
  }

  lemma HasSplit(data: seq<Byte>, p: nat, x: seq<Byte>, y: seq<Byte>)
    requires Has(data, p, x + y)
    ensures Has(data, p, x) && Has(data, p + |x|, y)
  {
    HasIs(data, p, x + y);
    HasIs(data, p, x);
    HasIs(data, p + |x|, y);
    assert data[p..p + |x|] == (x + y)[..|x|];
    assert data[p + |x|..p + |x| + |y|] == (x + y)[|x|..];
  }

  lemma BytesHere(data: seq<Byte>, p: nat, x: seq<Byte>)
    requires x != [] && Has(data, p, x)
    ensures BytesAt(data, p, |x|) == Ok((x, p + |x|))
  {
    HasIs(data, p, x);
  }

  lemma U16Here(data: seq<Byte>, p: nat, n: nat)
    requires n < 65536 && Has(data, p, U16(n))
    ensures U16At(data, p) == Ok((n, p + 2))
  {
    BytesHere(data, p, U16(n));
    U16RoundTrip(n);
  }

  lemma BlockHere(data: seq<Byte>, p: nat, s: Text)
    requires |s| <= 65535 && Has(data, p, Str(s))
    ensures BlockAt(data, p) == Ok((s, p + 2 + |s|))
  {
    HasSplit(data, p, U16(|s|), s);
    U16Here(data, p, |s|);
    if s != [] { BytesHere(data, p + 2, s); }
  }

  lemma VarIntHere(data: seq<Byte>, p: nat, n: nat)
    requires n <= MAX_REMAINING && Has(data, p, VarInt(n))
    ensures VarIntAt(data, p) == Ok((n, p + |VarInt(n)|))
  {
    var v := VarInt(n);
    HasIs(data, p, v);
    Pow128Small();
    VarIntRoundTrip(n, data[p + |v|..], 4);
    assert data[p..] == v + data[p + |v|..];
  }

  lemma {:induction false} SkipLengthRoundTrip(n: nat, rest: seq<Byte>, left: nat)
    requires left > 0 && n < Pow128(left)
    ensures SkipLength(VarInt(n) + rest, left) == Ok((n, |VarInt(n)|))
  {
    if n >= 128 {
      assert n == 128 * (n / 128) + n % 128;
      SkipLengthRoundTrip(n / 128, rest, left - 1);
      assert (VarInt(n) + rest)[1..] == VarInt(n / 128) + rest;
    }
  }

  /** Any property block is skipped exactly. */
  lemma SkippedHere(data: seq<Byte>, p: nat, block: seq<Byte>)
    requires |block| <= MAX_REMAINING && Has(data, p, Section(V50, block))
    ensures SkipPropsAt(data, p) == Ok(p + |Section(V50, block)|)
  {
    var v, s := VarInt(|block|), Section(V50, block);
    HasIs(data, p, s);
    Pow128Small();
    SkipLengthRoundTrip(|block|, block + data[p + |s|..], 4);
    assert data[p..] == s + data[p + |s|..] == v + (block + data[p + |s|..]);
  }

  /** A property a sender may put in a block. */
  datatype Prop = Prop(id: Byte, value: seq<Byte>)

  predicate Recognised(kind: PropKind, p: Prop)
  {
    Width(kind, p.id) == Some(|p.value|)
  }

  function EncodeProps(ps: seq<Prop>): seq<Byte>
  {
    if ps == [] then [] else [ps[0].id] + ps[0].value + EncodeProps(ps[1..])
  }

  /** What a block means: the last value given for each identifier. */
  function Meaning(ps: seq<Prop>, acc: Props): Props
  {
    if ps == [] then acc else Meaning(ps[1..], acc[ps[0].id := ps[0].value])
  }

  /** Only version 5 packets carry properties. */
  function MeaningIn(version: nat, ps: seq<Prop>): Props
  {
    if version == V50 then Meaning(ps, map[]) else map[]
  }

  lemma {:induction false} PropsFromHere(kind: PropKind, data: seq<Byte>, p: nat, ps: seq<Prop>, acc: Props)
    requires forall i :: 0 <= i < |ps| ==> Recognised(kind, ps[i])
    requires Has(data, p, EncodeProps(ps))
    ensures var end := p + |EncodeProps(ps)|;
            PropsFrom(kind, data, end, p, acc) == Ok((Meaning(ps, acc), end))
    decreases |ps|
  {
    if ps != [] {
      var q, rest := ps[0], EncodeProps(ps[1..]);
      HasSplit(data, p, [q.id] + q.value, rest);
      HasSplit(data, p, [q.id], q.value);
      HasIs(data, p + 1, q.value);
      PropsFromHere(kind, data, p + 1 + |q.value|, ps[1..], acc[q.id := q.value]);
    }
  }

  lemma PropsHere(kind: PropKind, data: seq<Byte>, p: nat, ps: seq<Prop>)
    requires WellFormedProps(kind, ps)
    requires Has(data, p, Section(V50, EncodeProps(ps)))
    ensures PropsAt(kind, data, p) == Ok((Meaning(ps, map[]), p + |Section(V50, EncodeProps(ps))|))
  {
    hide Has, VarInt, EncodeProps, Meaning, PropsFrom, VarIntAt;
    var block := EncodeProps(ps);
    HasSplit(data, p, VarInt(|block|), block);
    VarIntHere(data, p, |block|);
    PropsFromHere(kind, data, p + |VarInt(|block|)|, ps, map[]);
  }

  /** The packet a PUBLISH encoding stands for. */
  function Sent(version: nat, topic: Text, payload: seq<Byte>, qos: nat, retain: bool, packetId: nat, dup: bool, ps: seq<Prop>): Publish
  {
    var props := MeaningIn(version, ps);
    Publish(dup, qos, retain, topic, if qos > 0 then packetId else 0, payload,
            OrZero(Prop32(props, 0x02)), OrZero(Prop16(props, 0x23)))
  }

  /** Recognised properties whose encoding fits a property length. */
  predicate WellFormedProps(kind: PropKind, ps: seq<Prop>)
  {
    (forall i :: 0 <= i < |ps| ==> Recognised(kind, ps[i])) && |EncodeProps(ps)| <= MAX_REMAINING
  }

  /** What a sender must respect: a valid topic, or in version 5 an empty one with an alias. */
  predicate Sendable(version: nat, topic: Text, qos: nat, packetId: nat, dup: bool, ps: seq<Prop>)
  {
    && qos <= 2 && packetId < 65536 && (qos > 0 ==> packetId > 0) && (qos == 0 ==> !dup)
    && (version == V50 ==> WellFormedProps(GeneralProps, ps))
    && (ValidTopicName(topic) || (version == V50 && topic == [] && OrZero(Prop16(Meaning(ps, map[]), 0x23)) > 0))
  }

  lemma FlagsRoundTrip(qos: nat, retain: bool, dup: bool)
    requires qos <= 2
    ensures var f := PublishFlags(qos, retain, dup);
            f / 8 % 2 == (if dup then 1 else 0) && f / 2 % 4 == qos && f % 2 == (if retain then 1 else 0)
  {
  }

  /** Where the parts of a PUBLISH body stand. */
  lemma BodyParts(topic: Text, payload: seq<Byte>, qos: nat, packetId: nat, section: seq<Byte>)
    requires packetId < 65536 && |topic| <= 65535
    ensures var body := PublishBody(topic, payload, qos, packetId, section);
            var p := 2 + |topic|;
            var q := if qos > 0 then p + 2 else p;
            && Has(body, 0, Str(topic)) && (qos > 0 ==> Has(body, p, U16(packetId)))
            && Has(body, q, section) && q + |section| <= |body| && body[q + |section|..] == payload
  {
    var id: seq<Byte> := if qos > 0 then U16(packetId) else [];
    var a, b := Str(topic) + id, Str(topic) + id + section;
    var body := b + payload;
    HasIs(body, 0, body);
    HasSplit(body, 0, b, payload);
    HasSplit(body, 0, a, section);
    HasSplit(body, 0, Str(topic), id);
  }

  /** The read gives `x` and leaves the cursor at `next`. */
  predicate Yields<T(==)>(r: Result<(T, nat)>, x: T, next: nat)
  {
    r.Ok? && r.value.0 == x && r.value.1 == next
  }

  /** The decoder, given what stands at each position. */
  lemma PublishIs(version: nat, flags: nat, body: seq<Byte>, m: Publish, p: nat, q: nat, props: Props, r: nat)
    requires flags / 8 % 2 == (if m.dup then 1 else 0) && flags / 2 % 4 == m.qos && flags % 2 == (if m.retain then 1 else 0)
    requires m.qos <= 2 && (m.qos == 0 ==> !m.dup) && BlockAt(body, 0) == Ok((m.topic, p))
    requires PublishId(m.qos, body, p) == Ok((m.packetId, q)) && Yields(PublishProps(version, body, q), props, r)
    requires m.expiry == OrZero(Prop32(props, 0x02)) && m.topicAlias == OrZero(Prop16(props, 0x23)) && m.payload == Rest(body, r)
    requires ValidTopicName(m.topic) || (version == V50 && m.topic == [] && m.topicAlias > 0)
    ensures ParsePublish(version, flags, body) == Ok(m)
  {
  }

  lemma PublishPropsHere(version: nat, data: seq<Byte>, p: nat, ps: seq<Prop>, section: seq<Byte>)
    requires version == V50 ==> WellFormedProps(GeneralProps, ps)
    requires section == Section(version, EncodeProps(ps)) && Has(data, p, section)
    ensures Yields(PublishProps(version, data, p), MeaningIn(version, ps), p + |section|)
  {
    if version == V50 { PropsHere(GeneralProps, data, p, ps); }
  }

  lemma PublishIdHere(qos: nat, data: seq<Byte>, p: nat, id: nat)
    requires id < 65536 && (qos > 0 ==> id > 0 && Has(data, p, U16(id)))
    ensures PublishId(qos, data, p) == Ok((if qos > 0 then id else 0, if qos > 0 then p + 2 else p))
  {
    if qos > 0 { U16Here(data, p, id); }
  }

  /** Decoding a PUBLISH encoding gives back every field, in both protocol versions. */
  lemma PublishRoundTrip(version: nat, topic: Text, payload: seq<Byte>, qos: nat, retain: bool, packetId: nat, dup: bool, ps: seq<Prop>)
    requires Sendable(version, topic, qos, packetId, dup, ps)
    ensures var f := PublishFrame(version, topic, payload, qos, retain, packetId, dup, EncodeProps(ps));
            ParsePublish(version, f.flags, f.body) == Ok(Sent(version, topic, payload, qos, retain, packetId, dup, ps))
  {
    hide Has, BlockAt, PublishId, PublishProps, ParsePublish, Section, Yields;
    var section := Section(version, EncodeProps(ps));
    var body := PublishBody(topic, payload, qos, packetId, section);
    var props := MeaningIn(version, ps);
    var p := 2 + |topic|;
    var q := if qos > 0 then p + 2 else p;
    FlagsRoundTrip(qos, retain, dup);
    BodyParts(topic, payload, qos, packetId, section);
    BlockHere(body, 0, topic);
    PublishIdHere(qos, body, p, packetId);
    PublishPropsHere(version, body, q, ps, section);
    PublishIs(version, PublishFlags(qos, retain, dup), body, Sent(version, topic, payload, qos, retain, packetId, dup, ps),
              p, q, props, q + |section|);
  }
}
