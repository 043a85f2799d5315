/** What a call of the deliver function means for the session and the write queue, said without
    the code's own tests: a message goes onto the wire or into the offline queue. */
module Outbound {
  import opened Bytes
  import opened Topics
  import opened Wire
  import opened Framing
  import opened Packets
  import opened Encoders
  import opened Sessions
  import opened PacketIds
  import opened Delivery

  datatype Status = Handshaking | Connected | Closed

  /** The bounded write queue drops what does not fit, and takes nothing once closed. */
  function Written(status: Status, capacity: nat, q: seq<seq<Byte>>, data: seq<Byte>): seq<seq<Byte>>
  {
    if status.Closed? || |q| >= capacity then q else q + [data]
  }

  /** What the deliver function of a connection adds to the write queue. */
  ghost function WriteOf(conn: Option<Conn>, capacity: nat, m: Message, s: State, q: seq<seq<Byte>>): seq<seq<Byte>>
    requires ValidState(s) && CanDeliver(s, conn, m)
  {
    if Sends(s, conn, m) then
      var id := if m.qos > 0 then PacketId(Deliver(s, conn, m).counter) else 0;
      Written(Status.Connected, capacity, q, PublishBytes(conn.value.version, m.topic, m.payload, m.qos, m.retain, id, false, []))
    else q
  }

  // ----- the reference -------------------------------------------------------------------

  /** The body of a PUBLISH (sections 3.3.2 and 3.3.3 of MQTT 5.0), with an empty property block in version 5. */
  function BodyOf(version: nat, m: Message, id: nat): seq<Byte>
    requires |m.topic| <= 65535 && id <= 65535
  {
    [(|m.topic| / 256) as Byte, (|m.topic| % 256) as Byte] + m.topic
    + (if m.qos > 0 then [(id / 256) as Byte, (id % 256) as Byte] else []) + (if version == 5 then [0] else []) + m.payload
  }

  /** The bytes are one PUBLISH packet that holds the message under the identifier and decodes to it. */
  ghost predicate IsPublishOf(version: nat, b: seq<Byte>, m: Message, id: nat)
  {
    match NextFrame(b, MAX_REMAINING)
    case None => false
    case Some((f, n)) =>
      && n == |b| && f.kind == 3 && f.flags == 2 * m.qos + (if m.retain then 1 else 0)
      && |m.topic| <= 65535 && id <= 65535 && f.body == BodyOf(version, m, id)
      && ParsePublish(version, f.flags, f.body) == Ok(Publish(false, m.qos, m.retain, m.topic, id, m.payload, 0, 0))
  }

  /** A message as the router hands it over. */
  predicate Routable(m: Message)
  {
    ValidTopicName(m.topic) && m.qos <= 2
  }

  /** The write queue gains the packet `b`, the message's PUBLISH, or is full; a QoS > 0 message is
      in flight under the free identifier in the packet; the offline queue stays. */
  ghost predicate SentAs(version: nat, capacity: nat, m: Message, s: State, t: State, q: seq<seq<Byte>>, r: seq<seq<Byte>>,
                         b: seq<Byte>, id: nat)
  {
    && (Routable(m) ==> IsPublishOf(version, b, m, id)) && r == Room(capacity, q, b)
    && t.out == (if m.qos > 0 then s.out[id := InFlight(m, Published)] else s.out)
    && (if m.qos > 0 then 1 <= id <= 65535 && id !in s.out else id == 0)
    && t.queue == s.queue && t.clean == s.clean
  }

  ghost predicate OnWire(version: nat, capacity: nat, m: Message, s: State, t: State, q: seq<seq<Byte>>, r: seq<seq<Byte>>)
  {
    exists b, id :: SentAs(version, capacity, m, s, t, q, r, b, id)
  }

  function Room(capacity: nat, q: seq<seq<Byte>>, b: seq<Byte>): seq<seq<Byte>>
  {
    if |q| < capacity then q + [b] else q
  }

  /** Nothing is written or put in flight; a persistent session queues the message behind the
      others, giving up its oldest only if it already holds 1000. */
  ghost predicate Offline(m: Message, s: State, t: State, q: seq<seq<Byte>>, r: seq<seq<Byte>>)
  {
    && r == q && t.out == s.out && t.clean == s.clean
    && t.queue == if s.clean then s.queue else if |s.queue| < 1000 then s.queue + [m] else s.queue[1..] + [m]
  }

  /** The size of the message's PUBLISH packet. */
  function PacketSize(version: nat, m: Message): nat
  {
    |PublishBytes(version, m.topic, m.payload, m.qos, m.retain, 1, false, [])|
  }

  /** The client is away, or its Receive Maximum is used up, or the packet exceeds its Maximum
      Packet Size (0 means no limit). */
  predicate MustWait(conn: Option<Conn>, s: State, m: Message)
  {
    || conn.None?
    || (conn.value.version == 5 && conn.value.recvMax > 0 && m.qos > 0 && |s.out| >= conn.value.recvMax)
    || (conn.value.maxPacket > 0 && PacketSize(conn.value.version, m) > conn.value.maxPacket
        && Announced(m.topic, m.payload, m.qos, Section(conn.value.version, [])) <= MAX_REMAINING)
  }

  /** The client is there, its Receive Maximum is not used up, and the packet is at least three
      bytes below its Maximum Packet Size. */
  predicate MustGo(conn: Option<Conn>, s: State, m: Message)
  {
    && conn.Some? && |m.topic| <= 65535
    && (m.qos == 0 || conn.value.version != 5 || conn.value.recvMax == 0 || |s.out| < conn.value.recvMax)
    && (conn.value.maxPacket == 0 || PacketSize(conn.value.version, m) + 3 <= conn.value.maxPacket)
  }

  /** One call of the deliver function, from session `s` and write queue `q` to `t` and `r`. */
  ghost predicate Handled(conn: Option<Conn>, capacity: nat, m: Message, s: State, t: State, q: seq<seq<Byte>>, r: seq<seq<Byte>>)
  {
    && (Offline(m, s, t, q, r) || (conn.Some? && OnWire(conn.value.version, capacity, m, s, t, q, r)))
    && (MustWait(conn, s, m) ==> Offline(m, s, t, q, r))
    && (MustGo(conn, s, m) ==> OnWire(conn.value.version, capacity, m, s, t, q, r))
    && (conn.Some? && conn.value.maxPacket > 0 ==> forall i :: |q| <= i < |r| ==> |r[i]| <= conn.value.maxPacket)
  }

  /** A series of calls, each handled in turn: the sessions and write queues passed through. */
  ghost predicate Chain(conn: Option<Conn>, capacity: nat, ms: seq<Message>, us: seq<State>, xs: seq<seq<seq<Byte>>>)
  {
    && |us| == |ms| + 1 && |xs| == |ms| + 1
    && forall i :: 0 <= i < |ms| ==> Handled(conn, capacity, ms[i], us[i], us[i + 1], xs[i], xs[i + 1])
  }

  ghost predicate AllHandled(conn: Option<Conn>, capacity: nat, ms: seq<Message>, s: State, t: State, q: seq<seq<Byte>>, r: seq<seq<Byte>>)
  {
    exists us, xs :: Chain(conn, capacity, ms, us, xs) && us[0] == s && us[|ms|] == t && xs[0] == q && xs[|ms|] == r
  }

  lemma ChainNext(conn: Option<Conn>, capacity: nat, ms: seq<Message>, i: nat, us: seq<State>, xs: seq<seq<seq<Byte>>>, t: State, r: seq<seq<Byte>>)
    requires i < |ms| && Chain(conn, capacity, ms[..i], us, xs) && Handled(conn, capacity, ms[i], us[i], t, xs[i], r)
    ensures Chain(conn, capacity, ms[..i + 1], us + [t], xs + [r])
  {
    hide Handled;
    var vs, ys := us + [t], xs + [r];
    forall j | 0 <= j < i + 1 ensures Handled(conn, capacity, ms[..i + 1][j], vs[j], vs[j + 1], ys[j], ys[j + 1]) {
      if j < i {
        assert Handled(conn, capacity, ms[..i][j], us[j], us[j + 1], xs[j], xs[j + 1]);
      }
    }
  }

  // ----- the deliver function meets it -------------------------------------------------------

  /** The size does not depend on the identifier. */
  lemma SizeWithAnyId(version: nat, m: Message, id: nat)
    requires id < 65536
    ensures |PublishBytes(version, m.topic, m.payload, m.qos, m.retain, id, false, [])| == PacketSize(version, m)
  {
  }

  /** Nothing the deliver function encodes is longer than the peer's Maximum Packet Size. */
  lemma SentFits(c: Conn, m: Message, id: nat)
    requires id < 65536 && Announced(m.topic, m.payload, m.qos, Section(c.version, [])) <= MAX_REMAINING
    requires !TooBig(c, m) && c.maxPacket > 0
    ensures |PublishBytes(c.version, m.topic, m.payload, m.qos, m.retain, id, false, [])| <= c.maxPacket
  {
    ApproxSizeCovers(c.version, m.topic, m.payload, m.qos, m.retain, id, false);
  }

  lemma TooBigIfLonger(c: Conn, m: Message)
    requires c.maxPacket > 0 && PacketSize(c.version, m) > c.maxPacket
    requires Announced(m.topic, m.payload, m.qos, Section(c.version, [])) <= MAX_REMAINING
    ensures TooBig(c, m)
  {
    ApproxSizeCovers(c.version, m.topic, m.payload, m.qos, m.retain, 1, false);
  }

  lemma NotTooBigIfShorter(c: Conn, m: Message)
    requires |m.topic| <= 65535 && (c.maxPacket == 0 || PacketSize(c.version, m) + 3 <= c.maxPacket)
    ensures !TooBig(c, m)
  {
    var n := ApproxSize(c.version, m.topic, |m.payload|, m.qos);
    assert n <= PacketSize(c.version, m) + 3;
    assert n % UINT32 <= n;
  }

  /** The encoding of a message is its PUBLISH. */
  lemma EncodedIsPublish(version: nat, m: Message, id: nat)
    requires Routable(m) && Announced(m.topic, m.payload, m.qos, Section(version, [])) <= MAX_REMAINING
    requires if m.qos > 0 then 1 <= id <= 65535 else id == 0
    ensures IsPublishOf(version, PublishBytes(version, m.topic, m.payload, m.qos, m.retain, id, false, []), m, id)
  {
    hide PublishBytes, ParsePublish, NextFrame, Announced;
    FitsFrames(version, m.topic, m.payload, m.qos, m.retain, id, false, []);
    PublishRoundTrip(version, m.topic, m.payload, m.qos, m.retain, id, false, []);
  }

  lemma SentIsOnWire(conn: Conn, capacity: nat, m: Message, s: State, q: seq<seq<Byte>>)
    requires ValidState(s) && CanDeliver(s, Some(conn), m) && CanEncode(s, Some(conn), m) && Sends(s, Some(conn), m)
    ensures OnWire(conn.version, capacity, m, s, Deliver(s, Some(conn), m), q, WriteOf(Some(conn), capacity, m, s, q))
  {
    hide PublishBytes, IsPublishOf, Announced;
    var t := Deliver(s, Some(conn), m);
    var id := if m.qos > 0 then PacketId(t.counter) else 0;
    var b := PublishBytes(conn.version, m.topic, m.payload, m.qos, m.retain, id, false, []);
    if Routable(m) { EncodedIsPublish(conn.version, m, id); }
    assert SentAs(conn.version, capacity, m, s, t, q, WriteOf(Some(conn), capacity, m, s, q), b, id);
  }

  lemma UnsentIsOffline(conn: Option<Conn>, capacity: nat, m: Message, s: State, q: seq<seq<Byte>>)
    requires ValidState(s) && CanDeliver(s, conn, m) && !Sends(s, conn, m)
    ensures Offline(m, s, Deliver(s, conn, m), q, WriteOf(conn, capacity, m, s, q))
  {
  }

  lemma WaitIsUnsent(conn: Option<Conn>, m: Message, s: State)
    requires MustWait(conn, s, m)
    ensures !Sends(s, conn, m)
  {
    if conn.Some? && conn.value.maxPacket > 0 && PacketSize(conn.value.version, m) > conn.value.maxPacket
       && Announced(m.topic, m.payload, m.qos, Section(conn.value.version, [])) <= MAX_REMAINING {
      TooBigIfLonger(conn.value, m);
    }
  }

  lemma GoIsSent(conn: Option<Conn>, m: Message, s: State)
    requires MustGo(conn, s, m)
    ensures Sends(s, conn, m)
  {
    NotTooBigIfShorter(conn.value, m);
  }

  lemma WrittenFits(conn: Option<Conn>, capacity: nat, m: Message, s: State, q: seq<seq<Byte>>)
    requires ValidState(s) && CanDeliver(s, conn, m) && CanEncode(s, conn, m) && conn.Some? && conn.value.maxPacket > 0
    ensures var r := WriteOf(conn, capacity, m, s, q);
            forall i :: |q| <= i < |r| ==> |r[i]| <= conn.value.maxPacket
  {
    if Sends(s, conn, m) {
      SentFits(conn.value, m, if m.qos > 0 then PacketId(Deliver(s, conn, m).counter) else 0);
    }
  }

  /** The deliver function does what the reference asks, for every session, connection, write
      queue and message. */
  lemma DeliverIsHandled(conn: Option<Conn>, capacity: nat, m: Message, s: State, q: seq<seq<Byte>>)
    requires ValidState(s) && CanDeliver(s, conn, m) && CanEncode(s, conn, m)
    ensures Handled(conn, capacity, m, s, Deliver(s, conn, m), q, WriteOf(conn, capacity, m, s, q))
  {
    hide Sends, Deliver, WriteOf, OnWire, Offline, MustWait, MustGo, CanEncode, CanDeliver;
    if Sends(s, conn, m) {
      assert conn.Some? by { SendsNeedsConn(conn, m, s); }
      SentIsOnWire(conn.value, capacity, m, s, q);
    } else {
      UnsentIsOffline(conn, capacity, m, s, q);
    }
    if MustWait(conn, s, m) { WaitIsUnsent(conn, m, s); }
    if MustGo(conn, s, m) { GoIsSent(conn, m, s); }
    if conn.Some? && conn.value.maxPacket > 0 { WrittenFits(conn, capacity, m, s, q); }
  }

  lemma SendsNeedsConn(conn: Option<Conn>, m: Message, s: State)
    requires Sends(s, conn, m)
    ensures conn.Some?
  {
  }
}
