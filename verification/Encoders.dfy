/** The encoders as they run, the size estimate used before encoding, and the packets the
    broker's acknowledgements and disconnects decode to. */
module Encoders {
  import opened Bytes
  import opened Wire
  import opened Framing
  import opened Packets

  /** The remaining length the encoder announces: it counts the whole topic. */
  function Announced(topic: Text, payload: seq<Byte>, qos: nat, section: seq<Byte>): nat
  {
    2 + |topic| + (if qos > 0 then 2 else 0) + |section| + |payload|
  }

  /** The bytes the PUBLISH encoders emit. */
  function PublishBytes(version: nat, topic: Text, payload: seq<Byte>, qos: nat, retain: bool, packetId: nat, dup: bool, props: seq<Byte>): seq<Byte>
    requires packetId < 65536
  {
    var section := Section(version, props);
    [(48 + PublishFlags(qos, retain, dup)) as Byte] + VarInt(Announced(topic, payload, qos, section))
    + PublishBody(topic, payload, qos, packetId, section)
  }

  method EncodePublish(topic: Text, payload: seq<Byte>, qos: nat, retain: bool, packetId: nat, dup: bool) returns (out: seq<Byte>)
    requires packetId < 65536 && Announced(topic, payload, qos, []) <= MAX_REMAINING
    ensures out == PublishBytes(V311, topic, payload, qos, retain, packetId, dup, [])
  {
    var remaining := 2 + |topic| + (if qos > 0 then 2 else 0) + |payload|;
    var varBuf := new Byte[4](_ => 0);
    Pow128Small();
    VarIntLength(remaining, 4);
    var varLen := EncodeVarInt(varBuf, remaining);
    out := [(48 + PublishFlags(qos, retain, dup)) as Byte];
    out := out + varBuf[..varLen];
    var body := Str(topic);
    if qos > 0 { body := body + U16(packetId); }
    body := body + payload;
    assert body == PublishBody(topic, payload, qos, packetId, []);
    out := out + body;
  }

  method EncodePublishV5(topic: Text, payload: seq<Byte>, qos: nat, retain: bool, packetId: nat, dup: bool, props: seq<Byte>) returns (out: seq<Byte>)
    requires packetId < 65536 && Announced(topic, payload, qos, Section(V50, props)) <= MAX_REMAINING
    ensures out == PublishBytes(V50, topic, payload, qos, retain, packetId, dup, props)
  {
    hide VarInt, Str, U16;
    Pow128Small();
    VarIntLength(|props|, 4);
    var propLenEnc := new Byte[4](_ => 0);
    var nProp := EncodeVarInt(propLenEnc, |props|);
    var section := propLenEnc[..nProp] + props;
    var remaining := 2 + |topic| + (if qos > 0 then 2 else 0) + nProp + |props| + |payload|;
    var varBuf := new Byte[4](_ => 0);
    VarIntLength(remaining, 4);
    var varLen := EncodeVarInt(varBuf, remaining);
    out := [(48 + PublishFlags(qos, retain, dup)) as Byte];
    out := out + varBuf[..varLen];
    var body := Str(topic);
    if qos > 0 { body := body + U16(packetId); }
    body := body + section;
    body := body + payload;
    assert body == PublishBody(topic, payload, qos, packetId, Section(V50, props));
    out := out + body;
  }

  lemma BodyLength(topic: Text, payload: seq<Byte>, qos: nat, packetId: nat, section: seq<Byte>)
    requires packetId < 65536 && |topic| <= 65535
    ensures |PublishBody(topic, payload, qos, packetId, section)| == Announced(topic, payload, qos, section)
  {
  }

  lemma FitsFrames(version: nat, topic: Text, payload: seq<Byte>, qos: nat, retain: bool, packetId: nat, dup: bool, props: seq<Byte>)
    requires packetId < 65536 && Announced(topic, payload, qos, Section(version, props)) <= MAX_REMAINING && |topic| <= 65535
    ensures var b := PublishBytes(version, topic, payload, qos, retain, packetId, dup, props);
            var f := PublishFrame(version, topic, payload, qos, retain, packetId, dup, props);
            b == EncodeFrame(f) && NextFrame(b, MAX_REMAINING) == Some((f, |b|))
  {
    hide Section, VarInt, ParseFixed, PublishBody, Announced;
    var f := PublishFrame(version, topic, payload, qos, retain, packetId, dup, props);
    BodyLength(topic, payload, qos, packetId, Section(version, props));
    ParseFixedEncoded(f, [], MAX_REMAINING);
    assert EncodeFrame(f) + [] == EncodeFrame(f);
  }

  lemma LongTopicDoesNotFrame(version: nat, topic: Text, payload: seq<Byte>, qos: nat, retain: bool, packetId: nat, dup: bool, props: seq<Byte>)
    requires packetId < 65536 && Announced(topic, payload, qos, Section(version, props)) <= MAX_REMAINING && |topic| > 65535
    ensures NextFrame(PublishBytes(version, topic, payload, qos, retain, packetId, dup, props), MAX_REMAINING) == None
  {
    hide Section, VarInt;
    var n, body := Announced(topic, payload, qos, Section(version, props)), PublishBody(topic, payload, qos, packetId, Section(version, props));
    var b := PublishBytes(version, topic, payload, qos, retain, packetId, dup, props);
    Pow128Small();
    VarIntRoundTrip(n, body, 4);
    assert b[1..] == VarInt(n) + body;
    assert |body| < n;
  }

  /** The emitted bytes are one well-formed packet exactly when the topic fits its two length
      bytes; a longer topic is cut while the announced length is not. */
  lemma PublishWellFramedIff(version: nat, topic: Text, payload: seq<Byte>, qos: nat, retain: bool, packetId: nat, dup: bool, props: seq<Byte>)
    requires packetId < 65536 && Announced(topic, payload, qos, Section(version, props)) <= MAX_REMAINING
    ensures var b := PublishBytes(version, topic, payload, qos, retain, packetId, dup, props);
            var f := PublishFrame(version, topic, payload, qos, retain, packetId, dup, props);
            && (|topic| <= 65535 ==> b == EncodeFrame(f) && NextFrame(b, MAX_REMAINING) == Some((f, |b|)))
            && (|topic| > 65535 ==> NextFrame(b, MAX_REMAINING) == None)
  {
    if |topic| <= 65535 {
      FitsFrames(version, topic, payload, qos, retain, packetId, dup, props);
    } else {
      LongTopicDoesNotFrame(version, topic, payload, qos, retain, packetId, dup, props);
    }
  }

  /** A whole PUBLISH over the wire: framing, then decoding, gives back the packet. */
  lemma PublishOverTheWire(version: nat, topic: Text, payload: seq<Byte>, qos: nat, retain: bool, packetId: nat, dup: bool, ps: seq<Prop>)
    requires Sendable(version, topic, qos, packetId, dup, ps)
    requires Announced(topic, payload, qos, Section(version, EncodeProps(ps))) <= MAX_REMAINING
    ensures var b := PublishBytes(version, topic, payload, qos, retain, packetId, dup, EncodeProps(ps));
            var frames := Frames(b, MAX_REMAINING);
            && |frames| == 1 && frames[0].kind == 3
            && ParsePublish(version, frames[0].flags, frames[0].body) == Ok(Sent(version, topic, payload, qos, retain, packetId, dup, ps))
  {
    var b := PublishBytes(version, topic, payload, qos, retain, packetId, dup, EncodeProps(ps));
    PublishWellFramedIff(version, topic, payload, qos, retain, packetId, dup, EncodeProps(ps));
    PublishRoundTrip(version, topic, payload, qos, retain, packetId, dup, ps);
    assert Frames(b[|b|..], MAX_REMAINING) == [];
  }

  /** The value given last for an identifier. */
  function LastValue(ps: seq<Prop>, id: Byte): Option<seq<Byte>>
  {
    if ps == [] then None
    else if ps[|ps| - 1].id == id then Some(ps[|ps| - 1].value)
    else LastValue(ps[..|ps| - 1], id)
  }

  lemma {:induction false} MeaningSnoc(ps: seq<Prop>, p: Prop, acc: Props)
    ensures Meaning(ps + [p], acc) == Meaning(ps, acc)[p.id := p.value]
    decreases |ps|
  {
    if ps == [] {
      assert ps + [p] == [p] && [p][1..] == [];
    } else {
      assert (ps + [p])[1..] == ps[1..] + [p];
      MeaningSnoc(ps[1..], p, acc[ps[0].id := ps[0].value]);
    }
  }

  /** A property block means, for each identifier, the value given last. */
  lemma {:induction false} MeaningIsLast(ps: seq<Prop>, id: Byte)
    ensures var m := Meaning(ps, map[]);
            (if id in m then Some(m[id]) else None) == LastValue(ps, id)
    decreases |ps|
  {
    if ps != [] {
      var front, p := ps[..|ps| - 1], ps[|ps| - 1];
      assert ps == front + [p];
      MeaningSnoc(front, p, map[]);
      MeaningIsLast(front, id);
    }
  }

  /** `n` is the number sent last under the identifier, none if it was not sent. */
  predicate Sends32(ps: seq<Prop>, id: Byte, n: Option<nat>)
  {
    match n
    case None => LastValue(ps, id) == None
    case Some(k) => k < 0x1_0000_0000 && LastValue(ps, id) == Some(U32(k))
  }

  predicate Sends16(ps: seq<Prop>, id: Byte, n: Option<nat>)
  {
    match n
    case None => LastValue(ps, id) == None
    case Some(k) => k < 65536 && LastValue(ps, id) == Some(U16(k))
  }

  lemma Number32Arrives(ps: seq<Prop>, id: Byte, n: Option<nat>)
    requires Sends32(ps, id, n)
    ensures Prop32(Meaning(ps, map[]), id) == n
  {
    MeaningIsLast(ps, id);
    if n.Some? { U32RoundTrip(n.value); }
  }

  lemma Number16Arrives(ps: seq<Prop>, id: Byte, n: Option<nat>)
    requires Sends16(ps, id, n)
    ensures Prop16(Meaning(ps, map[]), id) == n
  {
    MeaningIsLast(ps, id);
    if n.Some? { U16RoundTrip(n.value); }
  }

  /** Message expiry interval and topic alias arrive as the numbers sent last, and as 0 if they
      were not sent, whatever else the block holds. */
  lemma PublishNumbersArrive(topic: Text, payload: seq<Byte>, qos: nat, retain: bool, packetId: nat, dup: bool, ps: seq<Prop>,
                             expiry: Option<nat>, topicAlias: Option<nat>)
    requires Sendable(V50, topic, qos, packetId, dup, ps) && Sends32(ps, 0x02, expiry) && Sends16(ps, 0x23, topicAlias)
    ensures var f := PublishFrame(V50, topic, payload, qos, retain, packetId, dup, EncodeProps(ps));
            var p := ParsePublish(V50, f.flags, f.body);
            p.Ok? && p.value.expiry == OrZero(expiry) && p.value.topicAlias == OrZero(topicAlias)
  {
    PublishRoundTrip(V50, topic, payload, qos, retain, packetId, dup, ps);
    Number32Arrives(ps, 0x02, expiry);
    Number16Arrives(ps, 0x23, topicAlias);
  }

  // ----- the size estimate --------------------------------------------------------

  /** `ApproxClientOutboundPublishBytes`: room for the longest remaining-length field. */
  function ApproxSize(version: nat, topic: Text, payloadLen: nat, qos: nat): nat
  {
    var rem := 2 + |topic| + (if qos > 0 then 2 else 0) + (if version == V50 then 1 else 0) + payloadLen;
    1 + 4 + rem
  }

  lemma ApproxSizeCovers(version: nat, topic: Text, payload: seq<Byte>, qos: nat, retain: bool, packetId: nat, dup: bool)
    requires packetId < 65536 && Announced(topic, payload, qos, Section(version, [])) <= MAX_REMAINING
    ensures |PublishBytes(version, topic, payload, qos, retain, packetId, dup, [])| <= ApproxSize(version, topic, |payload|, qos)
  {
    Pow128Small();
    VarIntLength(Announced(topic, payload, qos, Section(version, [])), 4);
  }

  /** The estimate never falls short of the encoding and exceeds it by at most 3 bytes. */
  lemma ApproxSizeTight(version: nat, topic: Text, payload: seq<Byte>, qos: nat, retain: bool, packetId: nat, dup: bool)
    requires packetId < 65536 && |topic| <= 65535 && Announced(topic, payload, qos, Section(version, [])) <= MAX_REMAINING
    ensures var size := |PublishBytes(version, topic, payload, qos, retain, packetId, dup, [])|;
            size <= ApproxSize(version, topic, |payload|, qos) <= size + 3
  {
    Pow128Small();
    VarIntLength(Announced(topic, payload, qos, Section(version, [])), 4);
  }

  // ----- acknowledgements and DISCONNECT ------------------------------------------

  function AckFlags(kind: nat): nat
  {
    if kind == 6 then 2 else 0
  }

  function AckFrame(version: nat, kind: nat, packetId: nat, reason: Byte, props: seq<Byte>): Frame
    requires packetId < 65536
  {
    Frame(kind, AckFlags(kind), U16(packetId) + (if version == V50 then [reason] + VarInt(|props|) + props else []))
  }

  /** `DecodePacketID` recovers the identifier from every acknowledgement the broker sends. */
  lemma AckRoundTrip(version: nat, kind: nat, packetId: nat, reason: Byte, props: seq<Byte>)
    requires packetId < 65536
    ensures ParsePacketId(AckFrame(version, kind, packetId, reason, props).body) == Ok(packetId)
  {
    U16RoundTrip(packetId);
    assert AckFrame(version, kind, packetId, reason, props).body[..2] == U16(packetId);
  }

  function DisconnectBody(reason: Byte, props: seq<Byte>): seq<Byte>
  {
    [reason] + (VarInt(|props|) + props)
  }

  /** A version 5 DISCONNECT decodes to its reason and session expiry interval. */
  lemma DisconnectRoundTrip(reason: Byte, ps: seq<Prop>)
    requires WellFormedProps(GeneralProps, ps)
    ensures ParseDisconnect(V50, DisconnectBody(reason, EncodeProps(ps))) ==
            Ok(Disconnect(reason as int, Prop32(Meaning(ps, map[]), 0x11)))
  {
    var section := Section(V50, EncodeProps(ps));
    var body := [reason] + section;
    HasIs(body, 0, body);
    HasSplit(body, 0, [reason], section);
    BytesHere(body, 0, [reason]);
    PropsHere(GeneralProps, body, 1, ps);
  }

  /** The expiry interval of a DISCONNECT arrives as the number sent last, or as absent. */
  lemma DisconnectExpiryArrives(reason: Byte, ps: seq<Prop>, expiry: Option<nat>)
    requires WellFormedProps(GeneralProps, ps) && Sends32(ps, 0x11, expiry)
    ensures ParseDisconnect(V50, DisconnectBody(reason, EncodeProps(ps))) == Ok(Disconnect(reason as int, expiry))
  {
    DisconnectRoundTrip(reason, ps);
    Number32Arrives(ps, 0x11, expiry);
  }

  // ----- SUBSCRIBE and UNSUBSCRIBE bodies -----------------------------------------

  /** A filter and its options byte, of which the two low bits are the QoS. */
  datatype Wish = Wish(filter: Text, options: Byte)

  function Asked(ws: seq<Wish>): seq<Subscription>
  {
    if ws == [] then [] else [Subscription(ws[0].filter, ws[0].options as int % 4)] + Asked(ws[1..])
  }

  /** The filters in order, each with the two low bits of its options byte. */
  lemma {:induction false} AskedInOrder(ws: seq<Wish>, i: nat)
    requires i < |ws|
    ensures |Asked(ws)| == |ws| && Asked(ws)[i].filter == ws[i].filter && Asked(ws)[i].qos < 4
    ensures ws[i].options as int == 4 * (ws[i].options as int / 4) + Asked(ws)[i].qos
  {
    if i > 0 {
      AskedInOrder(ws[1..], i - 1);
    } else if |ws| > 1 {
      AskedInOrder(ws[1..], 0);
    }
  }

  function EncodeSubs(ws: seq<Wish>): seq<Byte>
  {
    if ws == [] then [] else Str(ws[0].filter) + [ws[0].options] + EncodeSubs(ws[1..])
  }

  /** One topic filter with its options byte, at the front of the remaining data. */
  lemma SubHere(data: seq<Byte>, p: nat, w: Wish, rest: seq<Byte>)
    requires |w.filter| <= 65535 && Has(data, p, Str(w.filter) + [w.options] + rest)
    ensures BlockAt(data, p) == Ok((w.filter, p + 2 + |w.filter|))
    ensures ByteAt(data, p + 2 + |w.filter|) == Ok((w.options, p + 3 + |w.filter|))
    ensures Has(data, p + 3 + |w.filter|, rest)
  {
    HasSplit(data, p, Str(w.filter) + [w.options], rest);
    HasSplit(data, p, Str(w.filter), [w.options]);
    BlockHere(data, p, w.filter);
    BytesHere(data, p + 2 + |w.filter|, [w.options]);
  }

  lemma SubsNext(data: seq<Byte>, p: nat, w: Wish, q: nat, rest: seq<Subscription>)
    requires p < |data| && BlockAt(data, p) == Ok((w.filter, q))
    requires ByteAt(data, q) == Ok((w.options, q + 1)) && SubsAt(data, q + 1) == Ok(rest)
    ensures SubsAt(data, p) == Ok([Subscription(w.filter, w.options as int % 4)] + rest)
  {
  }

  lemma {:induction false} SubsHere(data: seq<Byte>, p: nat, ws: seq<Wish>)
    requires forall i :: 0 <= i < |ws| ==> |ws[i].filter| <= 65535
    requires Has(data, p, EncodeSubs(ws)) && p + |EncodeSubs(ws)| == |data|
    ensures SubsAt(data, p) == Ok(Asked(ws))
    decreases |ws|
  {
    if ws != [] {
      var q := p + 2 + |ws[0].filter|;
      SubHere(data, p, ws[0], EncodeSubs(ws[1..]));
      SubsHere(data, q + 1, ws[1..]);
      SubsNext(data, p, ws[0], q, Asked(ws[1..]));
    }
  }

  /** Packet identifier and property block, in front of the entries. */
  lemma HeaderHere(version: nat, packetId: nat, block: seq<Byte>, entries: seq<Byte>)
    requires packetId < 65536 && |block| <= MAX_REMAINING
    ensures var body := U16(packetId) + (Section(version, block) + entries);
            var p := 2 + |Section(version, block)|;
            Yields(HeaderAt(version, body), packetId, p) && Has(body, p, entries) && p + |entries| == |body|
  {
    hide Has, U16, U16At, SkipPropsAt, Section;
    var body := U16(packetId) + (Section(version, block) + entries);
    HasIs(body, 0, body);
    ThreeParts(body, 0, U16(packetId), Section(version, block), entries);
    U16Here(body, 0, packetId);
    if version == V50 { SkippedHere(body, 2, block); } else { NoSection(version, block); }
  }

  lemma NoSection(version: nat, block: seq<Byte>)
    requires version != V50
    ensures Section(version, block) == []
  {
  }

  /** A SUBSCRIBE body decodes to the subscriptions it was built from, whatever property block
      and option bits it carries. */
  lemma SubscribeRoundTrip(version: nat, packetId: nat, block: seq<Byte>, ws: seq<Wish>)
    requires packetId < 65536 && |block| <= MAX_REMAINING && ws != [] && forall i :: 0 <= i < |ws| ==> |ws[i].filter| <= 65535
    ensures ParseSubscribe(version, U16(packetId) + (Section(version, block) + EncodeSubs(ws))) == Ok(Subscribe(packetId, Asked(ws)))
  {
    hide Has, EncodeSubs, U16, SubsAt, HeaderAt, Section;
    HeaderHere(version, packetId, block, EncodeSubs(ws));
    SubsHere(U16(packetId) + (Section(version, block) + EncodeSubs(ws)), 2 + |Section(version, block)|, ws);
  }

  function EncodeFilters(fs: seq<Text>): seq<Byte>
  {
    if fs == [] then [] else Str(fs[0]) + EncodeFilters(fs[1..])
  }

  lemma {:induction false} FiltersHere(data: seq<Byte>, p: nat, fs: seq<Text>)
    requires forall i :: 0 <= i < |fs| ==> |fs[i]| <= 65535
    requires Has(data, p, EncodeFilters(fs)) && p + |EncodeFilters(fs)| == |data|
    ensures FiltersAt(data, p) == Ok(fs)
    decreases |fs|
  {
    if fs != [] {
      HasSplit(data, p, Str(fs[0]), EncodeFilters(fs[1..]));
      BlockHere(data, p, fs[0]);
      FiltersHere(data, p + 2 + |fs[0]|, fs[1..]);
      FiltersNext(data, p, fs[0], p + 2 + |fs[0]|, fs[1..]);
      assert [fs[0]] + fs[1..] == fs;
    }
  }

  lemma FiltersNext(data: seq<Byte>, p: nat, f: Text, q: nat, rest: seq<Text>)
    requires p < |data| && BlockAt(data, p) == Ok((f, q)) && FiltersAt(data, q) == Ok(rest)
    ensures FiltersAt(data, p) == Ok([f] + rest)
  {
  }

  /** An UNSUBSCRIBE body decodes to the filters it was built from, whatever property block it
      carries. */
  lemma UnsubscribeRoundTrip(version: nat, packetId: nat, block: seq<Byte>, fs: seq<Text>)
    requires packetId < 65536 && |block| <= MAX_REMAINING && forall i :: 0 <= i < |fs| ==> |fs[i]| <= 65535
    ensures ParseUnsubscribe(version, U16(packetId) + (Section(version, block) + EncodeFilters(fs))) == Ok(Unsubscribe(packetId, fs))
  {
    hide Has, EncodeFilters, U16, FiltersAt, HeaderAt, Section;
    HeaderHere(version, packetId, block, EncodeFilters(fs));
    FiltersHere(U16(packetId) + (Section(version, block) + EncodeFilters(fs)), 2 + |Section(version, block)|, fs);
  }

  // ----- what the decoders refuse -----------------------------------------------------

  /** A PUBLISH that decodes is one a sender may send: QoS at most 2, an identifier exactly above
      QoS 0, no duplicate flag at QoS 0, a topic without wildcards or zero bytes, and an empty
      topic only in version 5 with an alias. */
  lemma AcceptedPublishIsValid(version: nat, flags: nat, body: seq<Byte>)
    requires ParsePublish(version, flags, body).Ok?
    ensures var p := ParsePublish(version, flags, body).value;
            && p.qos <= 2 && (if p.qos == 0 then p.packetId == 0 && !p.dup else 1 <= p.packetId <= 65535)
            && |p.topic| <= 65535 && (forall b :: b in p.topic ==> b != 35 && b != 43 && b != 0)
            && (p.topic == [] ==> version == 5 && p.topicAlias > 0)
            && p.topicAlias < 65536 && p.expiry < 0x1_0000_0000 && (version != 5 ==> p.topicAlias == 0 && p.expiry == 0)
  {
    hide BlockAt, PropsAt, U16At;
  }

  /** The connect flags decode exactly if the reserved bit is clear, the will bits are clear
      without a will, and the will QoS is not 3. */
  lemma FlagsAcceptedIff(f: Byte)
    ensures ParseFlags(f).Ok? <==>
              f as int % 2 == 0 && f as int / 8 % 4 != 3 && (f as int / 4 % 2 == 0 ==> f as int / 8 % 4 == 0 && f as int / 32 % 2 == 0)
  {
  }

  /** The fixed-header flags of an accepted PUBLISH: duplicate, QoS, retain (section 3.3.1 of MQTT 5.0). */
  lemma PublishFlagsInPlace(version: nat, flags: nat, body: seq<Byte>)
    requires flags < 16 && ParsePublish(version, flags, body).Ok?
    ensures var p := ParsePublish(version, flags, body).value;
            flags == Weight(p.dup, 8) + 2 * p.qos + Weight(p.retain, 1)
  {
    hide BlockAt, PublishId, PublishProps, Prop16, Prop32;
    assert flags / 8 < 2 && flags / 2 == flags / 2 % 4 + 4 * (flags / 8) && flags == flags % 2 + 2 * (flags / 2);
  }

  /** Every bit of an accepted flags byte is read, at its place (section 3.1.2.3 of MQTT 5.0). */
  lemma FlagsReadInPlace(f: Byte)
    requires ParseFlags(f).Ok?
    ensures var g := ParseFlags(f).value;
            f as int == Weight(g.clean, 2) + Weight(g.will, 4) + 8 * g.willQos + Weight(g.willRetain, 32) + Weight(g.password, 64) + Weight(g.username, 128)
  {
    var x := f as int;
    Digits(x);
    assert x % 2 == 0;
  }

  lemma Digits(x: nat)
    requires x < 256
    ensures x == x % 2 + 2 * (x / 2 % 2) + 4 * (x / 4 % 2) + 8 * (x / 8 % 4) + 32 * (x / 32 % 2) + 64 * (x / 64 % 2) + 128 * (x / 128 % 2)
  {
    assert x / 4 == x / 2 / 2 && x / 8 == x / 4 / 2 && x / 32 == x / 8 / 4 && x / 64 == x / 32 / 2 && x / 128 == x / 64 / 2;
    assert x == x % 2 + 2 * (x / 2) && x / 2 == x / 2 % 2 + 2 * (x / 4) && x / 4 == x / 4 % 2 + 2 * (x / 8);
    assert x / 8 == x / 8 % 4 + 4 * (x / 32) && x / 32 == x / 32 % 2 + 2 * (x / 64) && x / 64 == x / 64 % 2 + 2 * (x / 128);
    assert x / 128 < 2;
  }

  /** A CONNECT that decodes has a known protocol name and level. */
  lemma AcceptedConnectIsValid(body: seq<Byte>)
    requires ParseConnect(body).Ok?
    ensures var c := ParseConnect(body).value;
            && (c.version == 4 || c.version == 5) && BlockAt(body, 0).Ok?
            && (BlockAt(body, 0).value.0 == [77, 81, 84, 84] || BlockAt(body, 0).value.0 == [77, 81, 73, 115, 100, 112])
            && (c.will.Some? ==> c.will.value.qos <= 2)
  {
    hide BlockAt, ConnectPropsAt, OptionalBlockAt;
  }

  /** The shortest DISCONNECT, of either version, is an empty packet: reason 0 and no interval. */
  lemma PlainDisconnect(version: nat)
    ensures NextFrame([0xE0, 0], MAX_REMAINING) == Some((Frame(14, 0, []), 2))
    ensures ParseDisconnect(version, []) == Ok(Disconnect(0, None))
  {
    ParseFixedEncoded(Frame(14, 0, []), [], MAX_REMAINING);
    assert EncodeFrame(Frame(14, 0, [])) + [] == [0xE0, 0];
  }

  /** A version 3.1.1 DISCONNECT with a body, and a version 5 one with bytes after its properties,
      are refused. */
  lemma TrailingDisconnectRefused(version: nat, reason: Byte, ps: seq<Prop>, extra: seq<Byte>)
    requires WellFormedProps(GeneralProps, ps) && extra != []
    ensures ParseDisconnect(version, DisconnectBody(reason, EncodeProps(ps)) + extra).Err?
  {
    var section := Section(V50, EncodeProps(ps));
    var body := [reason] + (section + extra);
    assert body == DisconnectBody(reason, EncodeProps(ps)) + extra;
    HasIs(body, 0, body);
    ThreeParts(body, 0, [reason], section, extra);
    BytesHere(body, 0, [reason]);
    PropsHere(GeneralProps, body, 1, ps);
  }

  /** A SUBSCRIBE that decodes asks for something. */
  lemma EmptySubscribeRefused(version: nat, packetId: nat, block: seq<Byte>)
    requires packetId < 65536 && |block| <= MAX_REMAINING
    ensures ParseSubscribe(version, U16(packetId) + (Section(version, block) + [])) == Err(ProtocolViolation)
  {
    hide Has, U16, HeaderAt, Section;
    HeaderHere(version, packetId, block, []);
  }

  // ----- past the end of the data --------------------------------------------------

  /** Once the cursor is at or past the end, every read is an error and the payload empty. */
  lemma PastEndReadsNothing(kind: PropKind, data: seq<Byte>, pos: nat, n: nat)
    requires pos >= |data|
    ensures BytesAt(data, pos, n) == Err(Eof) && U16At(data, pos) == Err(Eof) && ByteAt(data, pos) == Err(Eof)
    ensures BlockAt(data, pos) == Err(Eof) && VarIntAt(data, pos) == Err(Malformed)
    ensures PropsAt(kind, data, pos) == Err(Malformed) && SkipPropsAt(data, pos) == Err(Eof)
    ensures Rest(data, pos) == []
  {
    assert Rest(data, pos) == [];
  }

  /** Reading a block ends at its declared end or beyond. */
  lemma {:induction false} PropsReachEnd(kind: PropKind, data: seq<Byte>, end: nat, pos: nat, acc: Props)
    requires PropsFrom(kind, data, end, pos, acc).Ok?
    ensures PropsFrom(kind, data, end, pos, acc).value.1 >= end
    decreases if pos < end then end - pos else 0
  {
    if pos < end {
      var w := Width(kind, data[pos]);
      if w.Some? { PropsReachEnd(kind, data, end, pos + 1 + w.value, acc[data[pos] := data[pos + 1..pos + 1 + w.value]]); }
    }
  }

  /** A version 5 PUBLISH that declares properties up to the end of its body or beyond has no
      payload: `n` is the declared length, `start` where the block begins. */
  lemma PublishOverrunEmpty(flags: nat, body: seq<Byte>, n: nat, start: nat)
    requires ParsePublish(V50, flags, body).Ok?
    requires VarIntAt(body, PublishId(flags / 2 % 4, body, BlockAt(body, 0).value.1).value.1) == Ok((n, start)) && start + n >= |body|
    ensures ParsePublish(V50, flags, body).value.payload == []
  {
    hide BlockAt, VarIntAt, PropsFrom, PublishId, Prop16, Prop32;
    PropsReachEnd(GeneralProps, body, start + n, start, map[]);
    var end := PropsFrom(GeneralProps, body, start + n, start, map[]).value.1;
    assert Rest(body, end) == [];
  }

  /** A version 5 CONNECT that declares properties up to the end of its body or beyond is
      refused: nothing is left for the client identifier. */
  lemma ConnectOverrunRefused(body: seq<Byte>, n: nat, start: nat)
    requires BlockAt(body, 0).Ok? && BlockAt(body, 0).value.1 + 4 < |body| && body[BlockAt(body, 0).value.1] == 5
    requires VarIntAt(body, BlockAt(body, 0).value.1 + 4) == Ok((n, start)) && start + n >= |body|
    ensures ParseConnect(body).Err?
  {
    hide VarIntAt, FromU16, WillAt, OptionalBlockAt, PropsFrom;
    var r := PropsFrom(ConnectProps, body, start + n, start, map[]);
    if r.Ok? {
      PropsReachEnd(ConnectProps, body, start + n, start, map[]);
      PastEndReadsNothing(ConnectProps, body, r.value.1, 0);
    }
  }

  // ----- CONNECT ---------------------------------------------------------------------

  /** What a client puts in its CONNECT. */
  datatype Hello = Hello(version: nat, clean: bool, keepAlive: nat, props: seq<Prop>, clientId: Text,
                         will: Option<Will>, willProps: seq<Byte>, username: Option<Text>, password: Option<seq<Byte>>)

  function Weight(b: bool, w: nat): nat
  {
    if b then w else 0
  }

  function ConnectFlags(h: Hello): (f: nat)
    requires h.will.Some? ==> h.will.value.qos <= 2
    ensures f < 256
  {
    Weight(h.clean, 2)
    + (if h.will.Some? then 4 + 8 * h.will.value.qos + Weight(h.will.value.retain, 32) else 0)
    + Weight(h.password.Some?, 64) + Weight(h.username.Some?, 128)
  }

  lemma FlagBits(c: nat, w: nat, q: nat, r: nat, p: nat, u: nat)
    requires c < 2 && w < 2 && q < 4 && r < 2 && p < 2 && u < 2
    ensures var f := 2 * c + 4 * w + 8 * q + 32 * r + 64 * p + 128 * u;
            && f % 2 == 0 && f / 2 % 2 == c && f / 4 % 2 == w && f / 8 % 4 == q
            && f / 32 % 2 == r && f / 64 % 2 == p && f / 128 % 2 == u
  {
    var f := 2 * c + 4 * w + 8 * q + 32 * r + 64 * p + 128 * u;
    assert f / 2 == c + 2 * (w + 2 * q + 8 * r + 16 * p + 32 * u);
    assert f / 4 == w + 2 * (q + 4 * r + 8 * p + 16 * u);
    assert f / 8 == q + 4 * (r + 2 * p + 4 * u);
    assert f / 32 == r + 2 * (p + 2 * u);
    assert f / 64 == p + 2 * u;
    assert f / 128 == u;
  }

  function FlagsOf(h: Hello): Flags
  {
    Flags(h.clean, h.will.Some?, if h.will.Some? then h.will.value.qos else 0, h.will.Some? && h.will.value.retain,
          h.username.Some?, h.password.Some?)
  }

  lemma ParseFlagBits(f: Flags, b: Byte)
    requires f.willQos <= 2 && (!f.will ==> f.willQos == 0 && !f.willRetain)
    requires b as int == Weight(f.clean, 2) + Weight(f.will, 4) + 8 * f.willQos + Weight(f.willRetain, 32) + Weight(f.password, 64) + Weight(f.username, 128)
    ensures ParseFlags(b) == Ok(f)
  {
    FlagBits(Weight(f.clean, 1), Weight(f.will, 1), f.willQos, Weight(f.willRetain, 1), Weight(f.password, 1), Weight(f.username, 1));
    assert !Bit(b, 1) && Bit(b, 2) == f.clean && Bit(b, 4) == f.will && WillQos(b) == f.willQos;
    assert Bit(b, 32) == f.willRetain && Bit(b, 64) == f.password && Bit(b, 128) == f.username;
  }

  lemma FlagsByteRoundTrip(h: Hello)
    requires h.will.Some? ==> h.will.value.qos <= 2
    ensures ParseFlags(ConnectFlags(h) as Byte) == Ok(FlagsOf(h))
  {
    ParseFlagBits(FlagsOf(h), ConnectFlags(h) as Byte);
  }

  function OptionalStr(o: Option<seq<Byte>>): seq<Byte>
  {
    if o.Some? then Str(o.value) else []
  }

  /** The will: in version 5 a property block, then topic and payload. */
  function WillBytes(h: Hello): seq<Byte>
  {
    if h.will.None? then [] else Section(h.version, h.willProps) + (Str(h.will.value.topic) + Str(h.will.value.payload))
  }

  predicate Fits(s: seq<Byte>)
  {
    |s| <= 65535
  }

  ghost predicate ValidHello(h: Hello)
  {
    && (h.version == V311 || h.version == V50) && h.keepAlive < 65536
    && Fits(h.clientId) && (h.username.Some? ==> Fits(h.username.value)) && (h.password.Some? ==> Fits(h.password.value))
    && (h.will.Some? ==> h.will.value.qos <= 2 && Fits(h.will.value.topic) && Fits(h.will.value.payload))
    && |h.willProps| <= MAX_REMAINING
  }

  ghost predicate ValidProps(h: Hello)
  {
    && WellFormedProps(ConnectProps, h.props)
    && Prop16(Meaning(h.props, map[]), 0x21) != Some(0) && Prop32(Meaning(h.props, map[]), 0x27) != Some(0)
  }

  function ConnectHead(h: Hello): seq<Byte>
    requires h.version < 256 && h.keepAlive < 65536 && (h.will.Some? ==> h.will.value.qos <= 2)
  {
    [h.version as Byte] + [ConnectFlags(h) as Byte] + U16(h.keepAlive)
  }

  function ConnectTail(h: Hello): seq<Byte>
  {
    WillBytes(h) + (OptionalStr(h.username) + OptionalStr(h.password))
  }

  function ConnectBody(h: Hello): seq<Byte>
    requires h.version < 256 && h.keepAlive < 65536 && (h.will.Some? ==> h.will.value.qos <= 2)
  {
    Str(MQTT) + (ConnectHead(h) + (Section(h.version, EncodeProps(h.props)) + (Str(h.clientId) + ConnectTail(h))))
  }

  lemma OptionalHere(data: seq<Byte>, p: nat, o: Option<seq<Byte>>)
    requires o.Some? ==> Fits(o.value)
    requires Has(data, p, OptionalStr(o))
    ensures Yields(OptionalBlockAt(o.Some?, data, p), o, p + |OptionalStr(o)|)
  {
    if o.Some? { BlockHere(data, p, o.value); }
  }

  lemma WillIs(data: seq<Byte>, p: nat, h: Hello, start: nat, q: nat, r: nat)
    requires h.will.Some? && (h.version == V50 ==> SkipPropsAt(data, p) == Ok(start)) && (h.version != V50 ==> start == p)
    requires BlockAt(data, start) == Ok((h.will.value.topic, q)) && BlockAt(data, q) == Ok((h.will.value.payload, r))
    ensures Yields(WillAt(h.version, FlagsOf(h), data, p), h.will, r)
  {
  }

  lemma WillSomeHere(data: seq<Byte>, p: nat, h: Hello, w: Will)
    requires h.will == Some(w) && |w.topic| <= 65535 && |w.payload| <= 65535 && |h.willProps| <= MAX_REMAINING
    requires Has(data, p, Section(h.version, h.willProps) + (Str(w.topic) + Str(w.payload)))
    ensures Yields(WillAt(h.version, FlagsOf(h), data, p), h.will, p + |Section(h.version, h.willProps)| + 4 + |w.topic| + |w.payload|)
  {
    hide Has, BlockAt, SkipPropsAt, WillAt, Yields, Str, Section, FlagsOf;
    var start := p + |Section(h.version, h.willProps)|;
    var q := start + 2 + |w.topic|;
    ThreeParts(data, p, Section(h.version, h.willProps), Str(w.topic), Str(w.payload));
    BlockHere(data, start, w.topic);
    BlockHere(data, q, w.payload);
    if h.version == V50 { SkippedHere(data, p, h.willProps); } else { NoSection(h.version, h.willProps); }
    WillIs(data, p, h, start, q, q + 2 + |w.payload|);
  }

  lemma WillHere(data: seq<Byte>, p: nat, h: Hello)
    requires ValidHello(h) && Has(data, p, WillBytes(h))
    ensures Yields(WillAt(h.version, FlagsOf(h), data, p), h.will, p + |WillBytes(h)|)
  {
    if h.will.Some? {
      hide Has, WillAt, Yields, Section, FlagsOf;
      WillSomeHere(data, p, h, h.will.value);
    }
  }

  lemma HeadHere(data: seq<Byte>, p: nat, h: Hello)
    requires ValidHello(h) && Has(data, p, ConnectHead(h))
    ensures ByteAt(data, p) == Ok((h.version as Byte, p + 1))
    ensures ByteAt(data, p + 1) == Ok((ConnectFlags(h) as Byte, p + 2))
    ensures U16At(data, p + 2) == Ok((h.keepAlive, p + 4))
  {
    var v, f := [h.version as Byte], [ConnectFlags(h) as Byte];
    HasSplit(data, p, v + f, U16(h.keepAlive));
    HasSplit(data, p, v, f);
    BytesHere(data, p, v);
    BytesHere(data, p + 1, f);
    U16Here(data, p + 2, h.keepAlive);
  }

  function SentProps(h: Hello): Props
  {
    MeaningIn(h.version, h.props)
  }

  lemma ConnectPropsHere(data: seq<Byte>, p: nat, h: Hello)
    requires ValidProps(h) && Has(data, p, Section(h.version, EncodeProps(h.props)))
    ensures Yields(ConnectPropsAt(h.version, data, p), SentProps(h), p + |Section(h.version, EncodeProps(h.props))|)
  {
    if h.version == V50 { PropsHere(ConnectProps, data, p, h.props); }
  }

  /** What the CONNECT stands for. */
  function Greeting(h: Hello): Connect
  {
    var props := SentProps(h);
    Connect(h.version, h.clean, h.keepAlive, OrZero(Prop32(props, 0x11)), OrZero(Prop16(props, 0x21)),
            OrZero(Prop32(props, 0x27)), OrZero(Prop16(props, 0x22)), h.clientId, h.will, h.username, h.password)
  }

  lemma ThreeParts(s: seq<Byte>, p: nat, a: seq<Byte>, b: seq<Byte>, c: seq<Byte>)
    requires Has(s, p, a + (b + c))
    ensures Has(s, p, a) && Has(s, p + |a|, b) && Has(s, p + |a| + |b|, c)
  {
    HasSplit(s, p, a, b + c);
    HasSplit(s, p + |a|, b, c);
  }

  /** The part of the decoder before the payload. */
  lemma HeaderIs(body: seq<Byte>, v: nat, flags: Byte, f: Flags, keepAlive: nat, props: Props, n: nat)
    requires BlockAt(body, 0) == Ok((MQTT, 6)) && (v == V311 || v == V50)
    requires ByteAt(body, 6) == Ok((v as Byte, 7)) && ByteAt(body, 7) == Ok((flags, 8)) && ParseFlags(flags) == Ok(f)
    requires U16At(body, 8) == Ok((keepAlive, 10)) && Yields(ConnectPropsAt(v, body, 10), props, n)
    ensures ParseConnect(body) == ConnectPayloadAt(v, f, keepAlive, props, body, n)
  {
  }

  /** The payload part, given where its fields end. */
  lemma PayloadIs(body: seq<Byte>, p: nat, h: Hello, q: nat, r: nat, s: nat, t: nat)
    requires BlockAt(body, p) == Ok((h.clientId, q)) && Yields(WillAt(h.version, FlagsOf(h), body, q), h.will, r)
    requires Yields(OptionalBlockAt(h.username.Some?, body, r), h.username, s)
    requires Yields(OptionalBlockAt(h.password.Some?, body, s), h.password, t)
    ensures ConnectPayloadAt(h.version, FlagsOf(h), h.keepAlive, SentProps(h), body, p) == Ok(Greeting(h))
  {
  }

  lemma TailHere(data: seq<Byte>, p: nat, h: Hello)
    requires ValidHello(h) && Has(data, p, ConnectTail(h))
    ensures var q := p + |WillBytes(h)|;
            var r := q + |OptionalStr(h.username)|;
            && Yields(WillAt(h.version, FlagsOf(h), data, p), h.will, q)
            && Yields(OptionalBlockAt(h.username.Some?, data, q), h.username, r)
            && Yields(OptionalBlockAt(h.password.Some?, data, r), h.password, r + |OptionalStr(h.password)|)
  {
    hide Has, WillAt, OptionalBlockAt, Yields, WillBytes, OptionalStr;
    var w, u, v := WillBytes(h), OptionalStr(h.username), OptionalStr(h.password);
    ThreeParts(data, p, w, u, v);
    WillHere(data, p, h);
    OptionalHere(data, p + |w|, h.username);
    OptionalHere(data, p + |w| + |u|, h.password);
  }

  lemma PayloadHere(data: seq<Byte>, p: nat, h: Hello)
    requires ValidHello(h) && Has(data, p, Str(h.clientId))
    requires Has(data, p + 2 + |h.clientId|, ConnectTail(h))
    ensures ConnectPayloadAt(h.version, FlagsOf(h), h.keepAlive, SentProps(h), data, p) == Ok(Greeting(h))
  {
    hide Has, BlockAt, WillAt, OptionalBlockAt, ConnectPayloadAt, Yields, Greeting, SentProps;
    var q := p + 2 + |h.clientId|;
    var r := q + |WillBytes(h)|;
    var s := r + |OptionalStr(h.username)|;
    BlockHere(data, p, h.clientId);
    TailHere(data, q, h);
    PayloadIs(data, p, h, q, r, s, s + |OptionalStr(h.password)|);
  }

  /** The parts of a CONNECT body stand where they should. */
  ghost predicate Laid(h: Hello, b: seq<Byte>, n: nat)
    requires ValidHello(h)
  {
    && n == 10 + |Section(h.version, EncodeProps(h.props))|
    && Has(b, 0, Str(MQTT)) && Has(b, 6, ConnectHead(h)) && Has(b, 10, Section(h.version, EncodeProps(h.props)))
    && Has(b, n, Str(h.clientId)) && Has(b, n + 2 + |h.clientId|, ConnectTail(h))
  }

  lemma ConnectParts(h: Hello)
    requires ValidHello(h)
    ensures Laid(h, ConnectBody(h), 10 + |Section(h.version, EncodeProps(h.props))|)
  {
    hide Has, Section, ConnectTail, Str;
    var b, section := ConnectBody(h), Section(h.version, EncodeProps(h.props));
    HasIs(b, 0, b);
    ThreeParts(b, 0, Str(MQTT), ConnectHead(h), section + (Str(h.clientId) + ConnectTail(h)));
    ThreeParts(b, 10, section, Str(h.clientId), ConnectTail(h));
  }

  lemma ConnectHeaderIs(h: Hello, b: seq<Byte>, n: nat)
    requires ValidHello(h) && ValidProps(h) && Laid(h, b, n)
    ensures ParseConnect(b) == ConnectPayloadAt(h.version, FlagsOf(h), h.keepAlive, SentProps(h), b, n)
  {
    hide Has, BlockAt, ByteAt, U16At, ConnectPropsAt, ConnectPayloadAt, ParseConnect, ParseFlags, Yields, Section, SentProps;
    BlockHere(b, 0, MQTT);
    HeadHere(b, 6, h);
    ConnectPropsHere(b, 10, h);
    FlagsByteRoundTrip(h);
    HeaderIs(b, h.version, ConnectFlags(h) as Byte, FlagsOf(h), h.keepAlive, SentProps(h), n);
  }

  lemma ConnectDecodes(h: Hello, b: seq<Byte>, n: nat)
    requires ValidHello(h) && ValidProps(h) && Laid(h, b, n)
    ensures ParseConnect(b) == Ok(Greeting(h))
  {
    ConnectHeaderIs(h, b, n);
    PayloadHere(b, n, h);
  }

  /** Decoding a CONNECT gives back every field the client put in it. */
  lemma ConnectRoundTrip(h: Hello)
    requires ValidHello(h) && ValidProps(h)
    ensures ParseConnect(ConnectBody(h)) == Ok(Greeting(h))
  {
    ConnectParts(h);
    ConnectDecodes(h, ConnectBody(h), 10 + |Section(h.version, EncodeProps(h.props))|);
  }

  /** The four limits of a version 5 CONNECT arrive as the numbers sent last, and as 0 if they
      were not sent, whatever else the block holds. */
  lemma ConnectNumbersArrive(h: Hello, expiry: Option<nat>, receiveMax: Option<nat>, maxPacket: Option<nat>, aliasMax: Option<nat>)
    requires ValidHello(h) && h.version == 5 && WellFormedProps(ConnectProps, h.props)
    requires Sends32(h.props, 0x11, expiry) && Sends16(h.props, 0x21, receiveMax) && receiveMax != Some(0)
    requires Sends32(h.props, 0x27, maxPacket) && Sends16(h.props, 0x22, aliasMax) && maxPacket != Some(0)
    ensures var c := ParseConnect(ConnectBody(h));
            && c.Ok? && c.value.expiry == OrZero(expiry) && c.value.receiveMax == OrZero(receiveMax)
            && c.value.maxPacket == OrZero(maxPacket) && c.value.aliasMax == OrZero(aliasMax)
  {
    hide ConnectBody, ParseConnect, Prop16, Prop32, Meaning, Sends16, Sends32, ValidHello;
    Number32Arrives(h.props, 0x11, expiry);
    Number16Arrives(h.props, 0x21, receiveMax);
    Number32Arrives(h.props, 0x27, maxPacket);
    Number16Arrives(h.props, 0x22, aliasMax);
    ConnectRoundTrip(h);
  }

  /** A Receive Maximum or a Maximum Packet Size of zero is refused. */
  lemma ZeroLimitRefused(h: Hello)
    requires ValidHello(h) && h.version == 5 && WellFormedProps(ConnectProps, h.props)
    requires Sends16(h.props, 0x21, Some(0)) || Sends32(h.props, 0x27, Some(0))
    ensures ParseConnect(ConnectBody(h)) == Err(ProtocolViolation)
  {
    hide Has, BlockAt, ByteAt, U16At, ParseFlags, Section, PropsAt, Meaning, Sends16, Sends32, WellFormedProps;
    var b := ConnectBody(h);
    ConnectParts(h);
    BlockHere(b, 0, MQTT);
    HeadHere(b, 6, h);
    FlagsByteRoundTrip(h);
    PropsHere(ConnectProps, b, 10, h.props);
    if Sends16(h.props, 0x21, Some(0)) { Number16Arrives(h.props, 0x21, Some(0)); }
    if Sends32(h.props, 0x27, Some(0)) { Number32Arrives(h.props, 0x27, Some(0)); }
  }

  /** Every choice of numbers can be sent: a block of the literal property identifiers is well formed. */
  lemma ConnectNumbersCanBeSent(expiry: nat, receiveMax: nat, maxPacket: nat, aliasMax: nat)
    requires expiry < 0x1_0000_0000 && receiveMax < 65536 && maxPacket < 0x1_0000_0000 && aliasMax < 65536
    ensures var ps := [Prop(0x11, U32(expiry)), Prop(0x21, U16(receiveMax)), Prop(0x27, U32(maxPacket)), Prop(0x22, U16(aliasMax))];
            && WellFormedProps(ConnectProps, ps) && |EncodeProps(ps)| == 16
            && Sends32(ps, 0x11, Some(expiry)) && Sends16(ps, 0x21, Some(receiveMax))
            && Sends32(ps, 0x27, Some(maxPacket)) && Sends16(ps, 0x22, Some(aliasMax))
  {
    var p, q, r, s := Prop(0x11, U32(expiry)), Prop(0x21, U16(receiveMax)), Prop(0x27, U32(maxPacket)), Prop(0x22, U16(aliasMax));
    LastOf([p, q, r], s, [p, q, r, s]);
    LastOf([p, q], r, [p, q, r]);
    LastOf([p], q, [p, q]);
    LastOf([], p, [p]);
    FirstOf(p, [q, r, s], [p, q, r, s]);
    FirstOf(q, [r, s], [q, r, s]);
    FirstOf(r, [s], [r, s]);
    FirstOf(s, [], [s]);
  }

  /** The same for a PUBLISH and for a DISCONNECT. */
  lemma GeneralNumbersCanBeSent(messageExpiry: nat, topicAlias: nat, sessionExpiry: nat)
    requires messageExpiry < 0x1_0000_0000 && topicAlias < 65536 && sessionExpiry < 0x1_0000_0000
    ensures var ps := [Prop(0x02, U32(messageExpiry)), Prop(0x23, U16(topicAlias)), Prop(0x11, U32(sessionExpiry))];
            && WellFormedProps(GeneralProps, ps) && |EncodeProps(ps)| == 13
            && Sends32(ps, 0x02, Some(messageExpiry)) && Sends16(ps, 0x23, Some(topicAlias)) && Sends32(ps, 0x11, Some(sessionExpiry))
  {
    var x, y, z := Prop(0x02, U32(messageExpiry)), Prop(0x23, U16(topicAlias)), Prop(0x11, U32(sessionExpiry));
    LastOf([x, y], z, [x, y, z]);
    LastOf([x], y, [x, y]);
    LastOf([], x, [x]);
    FirstOf(x, [y, z], [x, y, z]);
    FirstOf(y, [z], [y, z]);
    FirstOf(z, [], [z]);
  }

  lemma LastOf(ps: seq<Prop>, p: Prop, qs: seq<Prop>)
    requires qs == ps + [p]
    ensures forall id :: LastValue(qs, id) == if p.id == id then Some(p.value) else LastValue(ps, id)
  {
    assert qs[..|ps|] == ps;
  }

  lemma FirstOf(p: Prop, ps: seq<Prop>, qs: seq<Prop>)
    requires qs == [p] + ps
    ensures |EncodeProps(qs)| == 1 + |p.value| + |EncodeProps(ps)|
  {
    assert qs[1..] == ps;
  }
}
