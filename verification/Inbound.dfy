/** What the broker does with the packets a publisher sends: the outcome of each, its answer on the
    wire, and what is routed over a whole connection. */
module Inbound {
  import opened Bytes
  import opened Topics
  import opened Wire
  import opened Framing
  import opened Packets
  import opened Encoders
  import opened Sessions
  import opened Aliases
  import ExactlyOnce

  const PUBACK := 4
  const PUBREC := 5
  const PUBREL := 6
  const PUBCOMP := 7

  /** An acknowledgement: a 4-bit packet type and a 16-bit identifier. */
  datatype Ack = Ack(kind: nat, id: nat)

  function AckBytes(version: nat, a: Ack): seq<Byte>
  {
    EncodeFrame(AckFrame(version, a.kind % 16, a.id % 65536, 0, []))
  }

  /** What expiry, access control and plugins say about a PUBLISH. */
  datatype Verdict = Accepted | Expired | AclDenied | PluginRefused

  /** What a PUBLISH does: an error, or a message routed, a message stored, and an answer. */
  datatype Outcome = Outcome(error: Option<Error>, aliases: AliasMap, inFlight: map<nat, Message>,
                             routed: Option<Message>, answer: Option<Ack>)

  function PublishOutcome(version: nat, aliasMax: nat, aliases: AliasMap, inFlight: map<nat, Message>,
                          decoded: Result<Publish>, verdict: Verdict): Outcome
  {
    if decoded.Err? then Outcome(Some(decoded.error), aliases, inFlight, None, None)
    else
      var p := decoded.value;
      var r := Resolve(version, aliasMax, aliases, Use(p.topic, p.topicAlias));
      if r.topic.Err? then Outcome(Some(r.topic.error), r.aliases, inFlight, None, None)
      else
        var m := Message(r.topic.value, p.payload, p.qos, p.retain);
        if verdict == AclDenied && p.qos == 1 then Outcome(None, r.aliases, inFlight, None, Some(Ack(PUBACK, p.packetId)))
        else if verdict != Accepted then Outcome(None, r.aliases, inFlight, None, None)
        else if p.qos == 0 then Outcome(None, r.aliases, inFlight, Some(m), None)
        else if p.qos == 1 then Outcome(None, r.aliases, inFlight, Some(m), Some(Ack(PUBACK, p.packetId)))
        else Outcome(None, r.aliases, ExactlyOnce.OnPublish(inFlight, p.packetId, m), None, Some(Ack(PUBREC, p.packetId)))
  }

  // ----- answers on the wire ----------------------------------------------------------------

  /** The bytes are one acknowledgement packet: type and flags in the first byte (section 2.1.2 of
      MQTT 5.0), the identifier, and in version 5 reason 0 and no properties. */
  predicate IsAck(version: nat, b: seq<Byte>, kind: nat, flags: nat, id: nat)
  {
    match NextFrame(b, MAX_REMAINING)
    case None => false
    case Some((f, n)) =>
      && n == |b| && f.kind == kind && f.flags == flags && ParsePacketId(f.body) == Ok(id) && id < 65536
      && f.body == [(id / 256) as Byte, (id % 256) as Byte] + (if version == 5 then [0, 0] else [])
  }

  lemma AckFramed(version: nat, kind: nat, id: nat)
    requires kind < 16 && id < 65536
    ensures IsAck(version, AckBytes(version, Ack(kind, id)), kind, AckFlags(kind), id)
  {
    var f := AckFrame(version, kind, id, 0, []);
    var b := EncodeFrame(f);
    AckRoundTrip(version, kind, id, 0, []);
    ParseFixedEncoded(f, [], MAX_REMAINING);
    assert b + [] == b && b[|b|..] == [];
    assert f.body == [(id / 256) as Byte, (id % 256) as Byte] + (if version == 5 then [0, 0] else []);
  }

  /** PUBACK, PUBREC, PUBREL and PUBCOMP as the standard numbers them. */
  lemma AcksOnTheWire(version: nat, id: nat)
    requires id < 65536
    ensures IsAck(version, AckBytes(version, Ack(PUBACK, id)), 4, 0, id)
    ensures IsAck(version, AckBytes(version, Ack(PUBREC, id)), 5, 0, id)
    ensures IsAck(version, AckBytes(version, Ack(PUBREL, id)), 6, 2, id)
    ensures IsAck(version, AckBytes(version, Ack(PUBCOMP, id)), 7, 0, id)
  {
    hide AckBytes, IsAck;
    AckFramed(version, PUBACK, id);
    AckFramed(version, PUBREC, id);
    AckFramed(version, PUBREL, id);
    AckFramed(version, PUBCOMP, id);
  }

  // ----- what a PUBLISH may do ----------------------------------------------------------------

  /** Nothing is routed or stored unless the packet decodes, its topic resolves and it is accepted;
      a packet that is not accepted is answered only at QoS 1 by a denial. */
  lemma OnlyAcceptedTakesEffect(version: nat, aliasMax: nat, aliases: AliasMap, inFlight: map<nat, Message>,
                                decoded: Result<Publish>, verdict: Verdict)
    ensures var o := PublishOutcome(version, aliasMax, aliases, inFlight, decoded, verdict);
            && (o.routed.Some? || o.inFlight != inFlight ==> verdict == Accepted && decoded.Ok? && o.error == None)
            && (o.error.Some? ==> o.answer == None && o.aliases == aliases)
            && (verdict != Accepted ==>
                  (o.answer.Some? <==> verdict == AclDenied && o.error == None && decoded.Ok? && decoded.value.qos == 1)
                  && (o.answer.Some? ==> o.answer.value == Ack(4, decoded.value.packetId)))
  {
  }

  /** What an accepted packet does, given the topic it means. */
  function Effect(aliases: AliasMap, inFlight: map<nat, Message>, p: Publish, topic: Text): Outcome
  {
    var m := Message(topic, p.payload, p.qos, p.retain);
    match p.qos
    case 0 => Outcome(None, aliases, inFlight, Some(m), None)
    case 1 => Outcome(None, aliases, inFlight, Some(m), Some(Ack(4, p.packetId)))
    case _ => Outcome(None, aliases, if p.packetId in inFlight then inFlight else inFlight[p.packetId := m], None, Some(Ack(5, p.packetId)))
  }

  /** After any history of packets, an accepted version 5 PUBLISH is routed or stored under exactly
      the topic it means, with its own payload, QoS and retain flag, or refused if it means none. */
  lemma AcceptedByMeaning(aliasMax: nat, history: seq<Use>, inFlight: map<nat, Message>, p: Publish)
    ensures var u := Use(p.topic, p.topicAlias);
            var o := PublishOutcome(V50, aliasMax, Stored(aliasMax, history), inFlight, Ok(p), Accepted);
            var r := Meant(aliasMax, history, u);
            o == if r.Err? then Outcome(Some(r.error), Stored(aliasMax, history), inFlight, None, None)
                 else Effect(Stored(aliasMax, history + [u]), inFlight, p, r.value)
  {
    var u := Use(p.topic, p.topicAlias);
    ResolveIsMeant(aliasMax, history, u);
    assert (history + [u])[..|history|] == history;
  }

  /** In version 3.1.1 the topic in the packet is the topic meant. */
  lemma AcceptedAsIs(version: nat, aliasMax: nat, aliases: AliasMap, inFlight: map<nat, Message>, p: Publish)
    requires version != V50
    ensures PublishOutcome(version, aliasMax, aliases, inFlight, Ok(p), Accepted) == Effect(aliases, inFlight, p, p.topic)
  {
  }

  /** On the wire: any QoS 2 PUBLISH a sender encodes is stored under its identifier unless one
      already is, is answered with PUBREC, and is not routed yet. */
  lemma Qos2PublishStored(version: nat, aliasMax: nat, aliases: AliasMap, inFlight: map<nat, Message>,
                          topic: Text, payload: seq<Byte>, retain: bool, id: nat, dup: bool)
    requires ValidTopicName(topic) && 0 < id < 65536
    ensures var f := PublishFrame(version, topic, payload, 2, retain, id, dup, []);
            PublishOutcome(version, aliasMax, aliases, inFlight, ParsePublish(version, f.flags, f.body), Accepted)
            == Outcome(None, aliases, ExactlyOnce.OnPublish(inFlight, id, Message(topic, payload, 2, retain)), None, Some(Ack(5, id)))
  {
    PublishRoundTrip(version, topic, payload, 2, retain, id, dup, []);
  }

  /** On the wire: any QoS 0 or 1 PUBLISH is routed at once with all its fields, and answered
      with PUBACK exactly at QoS 1. */
  lemma LowQosPublishRouted(version: nat, aliasMax: nat, aliases: AliasMap, inFlight: map<nat, Message>,
                            topic: Text, payload: seq<Byte>, qos: nat, retain: bool, id: nat, dup: bool)
    requires ValidTopicName(topic) && qos < 2 && 0 < id < 65536 && (qos == 0 ==> !dup)
    ensures var f := PublishFrame(version, topic, payload, qos, retain, id, dup, []);
            PublishOutcome(version, aliasMax, aliases, inFlight, ParsePublish(version, f.flags, f.body), Accepted)
            == Outcome(None, aliases, inFlight, Some(Message(topic, payload, qos, retain)), if qos == 1 then Some(Ack(4, id)) else None)
  {
    PublishRoundTrip(version, topic, payload, qos, retain, id, dup, []);
  }

  // ----- whole connections --------------------------------------------------------------------

  /** What arrives: a decoded PUBLISH with the verdict on it, or a PUBREL. */
  datatype Arrival = Arrived(packet: Publish, verdict: Verdict) | Released(id: nat)

  /** The session's aliases and stored messages, and all messages routed so far. */
  datatype Link = Link(aliases: AliasMap, inFlight: map<nat, Message>, routed: seq<Message>)

  function Joined(routed: seq<Message>, m: Option<Message>): seq<Message>
  {
    if m.Some? then routed + [m.value] else routed
  }

  function Receive(version: nat, max: nat, l: Link, a: Arrival): Link
  {
    match a
    case Arrived(p, verdict) =>
      var o := PublishOutcome(version, max, l.aliases, l.inFlight, Ok(p), verdict);
      Link(o.aliases, o.inFlight, Joined(l.routed, o.routed))
    case Released(id) => Link(l.aliases, l.inFlight - {id}, Joined(l.routed, ExactlyOnce.OnPubrel(l.inFlight, id)))
  }

  function ReceiveAll(version: nat, max: nat, inFlight: map<nat, Message>, es: seq<Arrival>): Link
  {
    if es == [] then Link(map[], inFlight, [])
    else Receive(version, max, ReceiveAll(version, max, inFlight, es[..|es| - 1]), es[|es| - 1])
  }

  /** The alias fields of the packets so far. */
  function Uses(es: seq<Arrival>): seq<Use>
  {
    if es == [] then []
    else
      var front, last := Uses(es[..|es| - 1]), es[|es| - 1];
      if last.Arrived? then front + [Use(last.packet.topic, last.packet.topicAlias)] else front
  }

  lemma {:induction false} AliasesAreStored(max: nat, inFlight: map<nat, Message>, es: seq<Arrival>)
    ensures ReceiveAll(V50, max, inFlight, es).aliases == Stored(max, Uses(es))
  {
    if es != [] {
      var front, last := es[..|es| - 1], es[|es| - 1];
      AliasesAreStored(max, inFlight, front);
      if last.Arrived? {
        assert Uses(es)[..|Uses(es)| - 1] == Uses(front);
        OutcomeAliases(max, Stored(max, Uses(front)), ReceiveAll(V50, max, inFlight, front).inFlight, last.packet, last.verdict);
      }
    }
  }

  lemma OutcomeAliases(max: nat, aliases: AliasMap, inFlight: map<nat, Message>, p: Publish, verdict: Verdict)
    ensures PublishOutcome(V50, max, aliases, inFlight, Ok(p), verdict).aliases == Resolve(V50, max, aliases, Use(p.topic, p.topicAlias)).aliases
  {
  }

  /** Packet `i` is an accepted PUBLISH whose content is the message: the topic it means after the
      packets before it, its payload, QoS and retain flag. */
  predicate Sent(version: nat, max: nat, es: seq<Arrival>, i: nat, m: Message)
    requires i < |es|
  {
    && es[i].Arrived? && es[i].verdict == Accepted
    && m.payload == es[i].packet.payload && m.qos == es[i].packet.qos && m.retain == es[i].packet.retain
    && (if version == V50 then Meant(max, Uses(es[..i]), Use(es[i].packet.topic, es[i].packet.topicAlias)) == Ok(m.topic)
        else m.topic == es[i].packet.topic)
  }

  ghost predicate FromAccepted(version: nat, max: nat, es: seq<Arrival>, m: Message)
  {
    exists i :: 0 <= i < |es| && Sent(version, max, es, i, m)
  }

  lemma FromAcceptedLater(version: nat, max: nat, es: seq<Arrival>, m: Message)
    requires es != [] && FromAccepted(version, max, es[..|es| - 1], m)
    ensures FromAccepted(version, max, es, m)
  {
    var front := es[..|es| - 1];
    var i :| 0 <= i < |front| && Sent(version, max, front, i, m);
    assert front[i] == es[i] && front[..i] == es[..i];
    assert Sent(version, max, es, i, m);
  }

  /** What the last packet routes or stores is its own content. */
  lemma LastIsSent(version: nat, max: nat, inFlight: map<nat, Message>, es: seq<Arrival>)
    requires es != [] && es[|es| - 1].Arrived?
    ensures var l, a := ReceiveAll(version, max, inFlight, es[..|es| - 1]), es[|es| - 1];
            var o := PublishOutcome(version, max, l.aliases, l.inFlight, Ok(a.packet), a.verdict);
            && (o.routed.Some? ==> FromAccepted(version, max, es, o.routed.value))
            && (forall id :: id in o.inFlight ==>
                  (id in l.inFlight && o.inFlight[id] == l.inFlight[id]) || FromAccepted(version, max, es, o.inFlight[id]))
  {
    var n := |es| - 1;
    var front, a := es[..n], es[n];
    var l := ReceiveAll(version, max, inFlight, front);
    OnlyAcceptedTakesEffect(version, max, l.aliases, l.inFlight, Ok(a.packet), a.verdict);
    if a.verdict == Accepted {
      var u := Use(a.packet.topic, a.packet.topicAlias);
      if version == V50 {
        AliasesAreStored(max, inFlight, front);
        AcceptedByMeaning(max, Uses(front), l.inFlight, a.packet);
        if Meant(max, Uses(front), u).Ok? {
          assert Sent(version, max, es, n, Message(Meant(max, Uses(front), u).value, a.packet.payload, a.packet.qos, a.packet.retain));
        }
      } else {
        AcceptedAsIs(version, max, l.aliases, l.inFlight, a.packet);
        assert Sent(version, max, es, n, Message(a.packet.topic, a.packet.payload, a.packet.qos, a.packet.retain));
      }
    }
  }

  /** Over a whole connection, everything routed comes from an accepted PUBLISH of it or was stored
      by the session before, and so does everything still stored. */
  lemma {:induction false} RoutedCameFromAccepted(version: nat, max: nat, inFlight: map<nat, Message>, es: seq<Arrival>)
    ensures var l := ReceiveAll(version, max, inFlight, es);
            && (forall m :: m in l.routed ==> FromAccepted(version, max, es, m) || m in inFlight.Values)
            && (forall id :: id in l.inFlight ==> FromAccepted(version, max, es, l.inFlight[id]) || l.inFlight[id] in inFlight.Values)
  {
    if es != [] {
      var n := |es| - 1;
      var front, a, l := es[..n], es[n], ReceiveAll(version, max, inFlight, es[..n]);
      RoutedCameFromAccepted(version, max, inFlight, front);
      forall m | FromAccepted(version, max, front, m) ensures FromAccepted(version, max, es, m) { FromAcceptedLater(version, max, es, m); }
      if a.Arrived? { LastIsSent(version, max, inFlight, es); }
    }
  }

  // ----- the exactly-once handshake on the wire -----------------------------------------------

  /** An answer read back by the numbers of the standard. */
  function ReadAnswer(b: seq<Byte>, stamp: int): Option<ExactlyOnce.Down>
  {
    match NextFrame(b, MAX_REMAINING)
    case None => None
    case Some((f, n)) =>
      if n != |b| || f.flags != 0 || ParsePacketId(f.body).Err? then None
      else if f.kind == 5 then Some(ExactlyOnce.Pubrec(ParsePacketId(f.body).value, stamp))
      else if f.kind == 7 then Some(ExactlyOnce.Pubcomp(ParsePacketId(f.body).value, stamp))
      else None
  }

  lemma AckReadsAs(version: nat, b: seq<Byte>, id: nat, stamp: int)
    ensures IsAck(version, b, 5, 0, id) ==> ReadAnswer(b, stamp) == Some(ExactlyOnce.Pubrec(id, stamp))
    ensures IsAck(version, b, 7, 0, id) ==> ReadAnswer(b, stamp) == Some(ExactlyOnce.Pubcomp(id, stamp))
  {
  }

  /** A PUBLISH of the handshake, encoded by the sender and handled by the broker, does to the
      session what the handshake model's step does, and its answer on the wire reads as the PUBREC
      the step appends. */
  lemma PublishStepOnTheWire(w: ExactlyOnce.World, version: nat, max: nat, aliases: AliasMap, dup: bool)
    requires w.up != [] && w.up[0].Publish? && 0 < w.up[0].id < 65536 && w.up[0].msg.qos == 2 && ValidTopicName(w.up[0].msg.topic)
    ensures var p, v := w.up[0], ExactlyOnce.BrokerStep(w);
            var f := PublishFrame(version, p.msg.topic, p.msg.payload, 2, p.msg.retain, p.id, dup, []);
            var o := PublishOutcome(version, max, aliases, w.inFlight, ParsePublish(version, f.flags, f.body), Accepted);
            && o.error == None && o.inFlight == v.inFlight && o.routed == None && v.routed == w.routed && o.answer.Some?
            && ReadAnswer(AckBytes(version, o.answer.value), p.stamp).Some?
            && v.down == w.down + [ReadAnswer(AckBytes(version, o.answer.value), p.stamp).value]
  {
    hide AckBytes, ReadAnswer, IsAck, PublishOutcome, ParsePublish, PublishFrame;
    var p := w.up[0];
    Qos2PublishStored(version, max, aliases, w.inFlight, p.msg.topic, p.msg.payload, p.msg.retain, p.id, dup);
    AcksOnTheWire(version, p.id);
    AckReadsAs(version, AckBytes(version, Ack(5, p.id)), p.id, p.stamp);
  }

  /** The same for a PUBREL and its PUBCOMP. */
  lemma PubrelStepOnTheWire(w: ExactlyOnce.World, version: nat)
    requires w.up != [] && w.up[0].Pubrel? && w.up[0].id < 65536
    ensures var p, v := w.up[0], ExactlyOnce.BrokerStep(w);
            var b := AckBytes(version, Ack(PUBCOMP, p.id));
            var m := ExactlyOnce.OnPubrel(w.inFlight, p.id);
            && v.inFlight == w.inFlight - {p.id} && v.routed == w.routed + (if m.Some? then [ExactlyOnce.Routed(p.id, m.value)] else [])
            && ReadAnswer(b, p.stamp).Some? && v.down == w.down + [ReadAnswer(b, p.stamp).value]
  {
    hide AckBytes, ReadAnswer, IsAck;
    var p := w.up[0];
    AcksOnTheWire(version, p.id);
    AckReadsAs(version, AckBytes(version, Ack(PUBCOMP, p.id)), p.id, p.stamp);
  }
}
