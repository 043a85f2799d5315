/** A client connection: its handlers, its deliver function and its write queue. */
module Clients {
  import opened Bytes
  import opened Wire
  import opened Framing
  import opened Packets
  import opened Encoders
  import opened Sessions
  import opened PacketIds
  import opened Aliases
  import opened Outbound
  import opened Inbound
  import Decoders
  import Delivery
  import ExactlyOnce

  /** The write queue gains one acknowledgement packet, unless it is full or the connection closed. */
  ghost predicate Answers(version: nat, status: Status, capacity: nat, q: seq<seq<Byte>>, r: seq<seq<Byte>>, kind: nat, flags: nat, id: nat)
  {
    if status == Closed || |q| >= capacity then r == q
    else |r| == |q| + 1 && r[..|q|] == q && IsAck(version, r[|q|], kind, flags, id)
  }

  class Client {
    const session: Session
    const capacity: nat
    var status: Status
    var version: nat
    var peerRecvMax: nat
    var peerMaxPacketSize: nat
    var aliasMax: nat
    var topicAliases: AliasMap
    var writeQ: seq<seq<Byte>>

    constructor (session: Session, capacity: nat, version: nat, peerRecvMax: nat, peerMaxPacketSize: nat, aliasMax: nat)
      ensures this.session == session && this.capacity == capacity && this.version == version && status == Status.Connected
      ensures this.peerRecvMax == peerRecvMax && this.peerMaxPacketSize == peerMaxPacketSize && this.aliasMax == aliasMax
      ensures topicAliases == map[] && writeQ == []
    {
      this.session, this.capacity, this.version, status := session, capacity, version, Status.Connected;
      this.peerRecvMax, this.peerMaxPacketSize, this.aliasMax := peerRecvMax, peerMaxPacketSize, aliasMax;
      topicAliases, writeQ := map[], [];
    }

    ghost function Conn(): Option<Delivery.Conn>
      reads this
    {
      if status.Connected? then Some(Delivery.Conn(version, peerRecvMax, peerMaxPacketSize)) else None
    }

    ghost function Model(): Delivery.State
      reads session
    {
      Delivery.State(session.clean, session.nextPktId, session.outFlight, session.queue)
    }

    method Enqueue(data: seq<Byte>)
      modifies this`writeQ
      ensures writeQ == Written(status, capacity, old(writeQ), data)
      ensures writeQ == if status == Closed || |old(writeQ)| >= capacity then old(writeQ) else old(writeQ) + [data]
    {
      if status.Closed? { return; }
      if |writeQ| < capacity { writeQ := writeQ + [data]; }
    }

    method EnqueuePubAck(kind: nat, id: nat)
      modifies this`writeQ
      ensures writeQ == Written(status, capacity, old(writeQ), AckBytes(version, Ack(kind, id)))
      ensures kind < 16 && id < 65536 ==> Answers(version, status, capacity, old(writeQ), writeQ, kind, if kind == 6 then 2 else 0, id)
    {
      if kind < 16 && id < 65536 { AckFramed(version, kind, id); }
      Enqueue(AckBytes(version, Ack(kind, id)));
    }

    // ----- outbound ------------------------------------------------------------------

    /** The closure of `makeDeliverFn`. */
    method Deliver(m: Message)
      requires session.Valid() && Delivery.CanDeliver(Model(), Conn(), m) && Delivery.CanEncode(Model(), Conn(), m)
      modifies this`writeQ, session
      ensures session.Valid() && session.inFlight == old(session.inFlight)
      ensures Model() == Delivery.Deliver(old(Model()), Conn(), m)
      ensures writeQ == WriteOf(Conn(), capacity, m, old(Model()), old(writeQ))
      ensures Handled(Conn(), capacity, m, old(Model()), Model(), old(writeQ), writeQ)
    {
      DeliverIsHandled(Conn(), capacity, m, Model(), writeQ);
      hide Handled, PublishBytes, Announced, ApproxSize;
      if status != Status.Connected {
        var _ := session.Enqueue(m);
        return;
      }
      var approx := ApproxSize(version, m.topic, |m.payload|, m.qos);
      if peerMaxPacketSize > 0 && approx % UINT32 > peerMaxPacketSize {
        var _ := session.Enqueue(m);
        return;
      }
      var pid := 0;
      if m.qos > 0 {
        var ok;
        pid, ok := Track(m);
        if !ok {
          var _ := session.Enqueue(m);
          return;
        }
      }
      Send(m, pid);
    }

    /** A QoS 1 or 2 message takes the next free identifier, and is recorded under it if the limit
        of the peer admits one more. */
    method Track(m: Message) returns (pid: nat, ok: bool)
      requires session.Valid() && status == Status.Connected && m.qos > 0 && |session.outFlight| < IDS - 1
      modifies session`nextPktId, session`outFlight
      ensures session.Valid() && pid < 65536 && ok == Admits(old(session.outFlight), Delivery.Limit(Conn().value))
      ensures var u := old(Model()).(counter := Delivery.NextCounter(old(Model())));
              && pid == PacketId(u.counter)
              && Model() == if ok then u.(out := u.out[pid := InFlight(m, Published)]) else u
    {
      var id, _ := session.NextPacketId();
      pid := id;
      var limit := if version == V50 then peerRecvMax else 0;
      ok := session.AddOutFlightLimited(pid, m, limit);
    }

    method Send(m: Message, pid: nat)
      requires status == Status.Connected && pid < 65536
      requires Announced(m.topic, m.payload, m.qos, Section(version, [])) <= MAX_REMAINING
      modifies this`writeQ
      ensures writeQ == Written(status, capacity, old(writeQ), PublishBytes(version, m.topic, m.payload, m.qos, m.retain, pid, false, []))
    {
      var enc;
      if version == V50 {
        enc := EncodePublishV5(m.topic, m.payload, m.qos, m.retain, pid, false, []);
      } else {
        enc := EncodePublish(m.topic, m.payload, m.qos, m.retain, pid, false);
      }
      Enqueue(enc);
    }

    /** On reconnect the offline queue is emptied and every message in it delivered anew, in order,
        each onto the wire or back into the queue. */
    method DrainOfflineQueue()
      requires session.Valid() && Delivery.CanDeliverAll(Model().(queue := []), Conn(), session.queue)
      modifies this`writeQ, session
      ensures session.Valid() && session.inFlight == old(session.inFlight)
      ensures Model() == Delivery.DeliverAll(old(Model()).(queue := []), Conn(), old(session.queue))
      ensures AllHandled(Conn(), capacity, old(session.queue), old(Model()).(queue := []), Model(), old(writeQ), writeQ)
    {
      hide Handled;
      var msgs := session.DrainQueue();
      ghost var start := Model();
      ghost var us, xs := [Model()], [writeQ];
      for i := 0 to |msgs|
        invariant session.Valid() && session.inFlight == old(session.inFlight)
        invariant Delivery.CanDeliverAll(Model(), Conn(), msgs[i..])
        invariant Delivery.DeliverAll(start, Conn(), msgs) == Delivery.DeliverAll(Model(), Conn(), msgs[i..])
        invariant Chain(Conn(), capacity, msgs[..i], us, xs)
        invariant us[0] == start && us[i] == Model() && xs[0] == old(writeQ) && xs[i] == writeQ
      {
        assert msgs[i..][0] == msgs[i] && msgs[i..][1..] == msgs[i + 1..];
        Deliver(msgs[i]);
        ChainNext(Conn(), capacity, msgs, i, us, xs, Model(), writeQ);
        us, xs := us + [Model()], xs + [writeQ];
      }
      assert msgs[..|msgs|] == msgs;
    }

    /** PUBACK and PUBCOMP both end the exchange. */
    method HandlePuback(body: seq<Byte>) returns (error: Option<Error>)
      requires session.Valid()
      modifies session`outFlight
      ensures session.Valid()
      ensures match ParsePacketId(body)
              case Err(e) => error == Some(e) && session.outFlight == old(session.outFlight)
              case Ok(id) => error == None && session.outFlight == Acked(old(session.outFlight), id)
    {
      var id := Decoders.DecodePacketId(body);
      if id.Err? { return Some(id.error); }
      var _ := session.AckOutFlight(id.value);
      error := None;
    }

    method HandlePubrec(body: seq<Byte>) returns (error: Option<Error>)
      requires session.Valid()
      modifies this`writeQ, session`outFlight
      ensures session.Valid()
      ensures match ParsePacketId(body)
              case Err(e) => error == Some(e) && session.outFlight == old(session.outFlight) && writeQ == old(writeQ)
              case Ok(id) =>
                && error == None && session.outFlight == WithPhase(old(session.outFlight), id, Received)
                && Answers(version, status, capacity, old(writeQ), writeQ, 6, 2, id)
    {
      var id := Decoders.DecodePacketId(body);
      if id.Err? { return Some(id.error); }
      session.SetOutFlightPhase(id.value, Received);
      EnqueuePubAck(PUBREL, id.value);
      error := None;
    }

    // ----- inbound -------------------------------------------------------------------

    method ResolvePublishTopic(u: Use) returns (topic: Result<Text>)
      modifies this`topicAliases
      ensures Resolved(topic, topicAliases) == Resolve(version, aliasMax, old(topicAliases), u)
    {
      if version != V50 { return Ok(u.topic); }
      var max := aliasMax;
      if u.topicAlias > 0 && max > 0 && u.topicAlias > max { return Err(ProtocolViolation); }
      if max == 0 && u.topicAlias > 0 { return Err(ProtocolViolation); }
      if u.topic == [] {
        if u.topicAlias !in topicAliases { return Err(ProtocolViolation); }
        return Ok(topicAliases[u.topicAlias]);
      }
      if u.topicAlias > 0 && max > 0 {
        topicAliases := topicAliases[u.topicAlias := u.topic];
      }
      topic := Ok(u.topic);
    }

    /** A PUBLISH from the client; `routed` is what is passed to the router. */
    method HandlePublish(fh: FixedHeader, body: seq<Byte>, verdict: Verdict) returns (error: Option<Error>, routed: Option<Message>)
      modifies this`topicAliases, this`writeQ, session`inFlight
      ensures var d := ParsePublish(version, fh.flags, body);
              var o := PublishOutcome(version, aliasMax, old(topicAliases), old(session.inFlight), d, verdict);
              && error == o.error && routed == o.routed && topicAliases == o.aliases && session.inFlight == o.inFlight
              && writeQ == (if o.answer.None? then old(writeQ)
                            else Written(status, capacity, old(writeQ), AckBytes(version, o.answer.value)))
              && (o.answer.Some? ==> Answers(version, status, capacity, old(writeQ), writeQ, o.answer.value.kind, 0, o.answer.value.id))
    {
      hide Answers;
      error, routed := None, None;
      var decoded := Decoders.DecodePublish(version, fh, body);
      if decoded.Err? { return Some(decoded.error), None; }
      AcceptedPublishIsValid(version, fh.flags, body);
      var p := decoded.value;
      var topic := ResolvePublishTopic(Use(p.topic, p.topicAlias));
      if topic.Err? { return Some(topic.error), None; }
      var m := Message(topic.value, p.payload, p.qos, p.retain);
      if verdict == AclDenied && p.qos == 1 { EnqueuePubAck(PUBACK, p.packetId); }
      if verdict != Accepted { return; }
      if p.qos == 0 {
        routed := Some(m);
      } else if p.qos == 1 {
        routed := Some(m);
        EnqueuePubAck(PUBACK, p.packetId);
      } else {
        if p.packetId !in session.inFlight { session.AddInFlight(p.packetId, m); }
        EnqueuePubAck(PUBREC, p.packetId);
      }
    }

    method HandlePubrel(body: seq<Byte>) returns (error: Option<Error>, routed: Option<Message>)
      modifies this`writeQ, session`inFlight
      ensures match ParsePacketId(body)
              case Err(e) => error == Some(e) && routed == None && session.inFlight == old(session.inFlight) && writeQ == old(writeQ)
              case Ok(id) =>
                && error == None && routed == ExactlyOnce.OnPubrel(old(session.inFlight), id)
                && session.inFlight == old(session.inFlight) - {id}
                && writeQ == Written(status, capacity, old(writeQ), AckBytes(version, Ack(PUBCOMP, id)))
                && Answers(version, status, capacity, old(writeQ), writeQ, 7, 0, id)
    {
      error, routed := None, None;
      var id := Decoders.DecodePacketId(body);
      if id.Err? { return Some(id.error), None; }
      routed := session.AckInFlight(id.value);
      EnqueuePubAck(PUBCOMP, id.value);
    }
  }
}
