/** A client session: outbound and inbound in-flight maps and the bounded offline queue. */
module Sessions {
  import opened Bytes
  import opened PacketIds

  datatype Message = Message(topic: Text, payload: seq<Byte>, qos: nat, retain: bool)

  datatype Phase = Published | Received | Released

  datatype InFlight = InFlight(msg: Message, phase: Phase)

  const MAX_QUEUE := 1000

  // ----- the offline queue ---------------------------------------------------------

  /** A full queue loses its head. */
  function Pushed(clean: bool, queue: seq<Message>, m: Message): (r: seq<Message>)
    ensures |queue| <= MAX_QUEUE ==> |r| <= MAX_QUEUE
  {
    if clean then queue
    else (if |queue| >= MAX_QUEUE then queue[1..] else queue) + [m]
  }

  /** What enqueuing pushes out. */
  function Evicted(clean: bool, queue: seq<Message>): seq<Message>
  {
    if !clean && |queue| >= MAX_QUEUE then queue[..1] else []
  }

  /** Enqueuing neither invents nor silently loses a message and keeps the order; it gives up one
      message, the oldest, exactly if 1000 are queued; a clean session queues nothing. */
  lemma PushedKeepsOrder(queue: seq<Message>, m: Message)
    ensures Evicted(false, queue) + Pushed(false, queue, m) == queue + [m]
    ensures |Evicted(false, queue)| == if |queue| >= 1000 then 1 else 0
    ensures Pushed(true, queue, m) == queue && Evicted(true, queue) == []
  {
    if |queue| >= MAX_QUEUE {
      assert queue == queue[..1] + queue[1..];
    }
  }

  // ----- outbound in flight ----------------------------------------------------------

  predicate Tracked(out: map<nat, InFlight>)
  {
    forall id :: id in out ==> 1 <= id < IDS && out[id].msg.qos > 0
  }

  /** Whether the client's Receive Maximum admits one more message (0 means no limit). */
  predicate Admits(out: map<nat, InFlight>, receiveMax: nat)
  {
    receiveMax == 0 || |out| < receiveMax
  }

  function Acked(out: map<nat, InFlight>, id: nat): map<nat, InFlight>
  {
    out - {id}
  }

  function WithPhase(out: map<nat, InFlight>, id: nat, phase: Phase): map<nat, InFlight>
  {
    if id in out then out[id := out[id].(phase := phase)] else out
  }

  // ----- connection state and expiry ---------------------------------------------------

  const NEVER := 0xFFFF_FFFF
  const SECOND := 1_000_000_000

  /** What decides how long a session lives. */
  datatype Life = Lifetime(clean: bool, connected: bool, level: nat, expirySec: nat, deadline: Option<int>)

  function NewLife(clean: bool): Life
  {
    Lifetime(clean, false, 0, 0, None)
  }

  function WithProtocol(l: Life, version: nat, clean: bool, expirySec: nat): Life
  {
    if version == V50 && !clean then l.(level := version, expirySec := expirySec)
    else if clean then l.(level := version, expirySec := 0, deadline := None)
    else l.(level := version)
  }

  /** The session is to be purged at once. */
  predicate PurgesNow(l: Life)
  {
    !l.clean && l.level == V50 && l.expirySec == 0
  }

  function Scheduled(l: Life, now: int): Life
  {
    if l.clean || l.level != V50 then l
    else if l.expirySec == 0 || l.expirySec == NEVER then l.(deadline := None)
    else l.(deadline := Some(now + l.expirySec * SECOND))
  }

  predicate IsExpired(l: Life, now: int)
  {
    !l.connected && !l.clean && l.deadline.Some? && now >= l.deadline.value
  }

  class Session {
    const clean: bool
    var nextPktId: nat
    var outFlight: map<nat, InFlight>
    var inFlight: map<nat, Message>
    var queue: seq<Message>
    var connected: bool
    var protocolLevel: nat
    var sessionExpirySec: nat
    var disconnectExpireAt: Option<int>

    constructor (clean: bool)
      ensures this.clean == clean && Empty() && Life() == NewLife(clean) && Valid()
    {
      this.clean, nextPktId, outFlight, inFlight, queue := clean, 0, map[], map[], [];
      connected, protocolLevel, sessionExpirySec, disconnectExpireAt := false, 0, 0, None;
    }

    /** Nothing is in flight and nothing queued. */
    ghost predicate Empty()
      reads this`nextPktId, this`outFlight, this`inFlight, this`queue
    {
      nextPktId == 0 && outFlight == map[] && inFlight == map[] && queue == []
    }

    function Life(): Life
      reads this`connected, this`protocolLevel, this`sessionExpirySec, this`disconnectExpireAt
    {
      Lifetime(clean, connected, protocolLevel, sessionExpirySec, disconnectExpireAt)
    }

    ghost predicate Valid()
      reads this
    {
      nextPktId < UINT32 && Tracked(outFlight) && |queue| <= MAX_QUEUE
    }

    /** The counter is advanced until its identifier is free. Ends, within two tries more than
        there are messages in flight, unless all 65535 identifiers are in flight. */
    method NextPacketId() returns (id: nat, ghost tries: nat)
      requires Valid() && |outFlight| < IDS - 1
      modifies this`nextPktId
      ensures Valid()
      ensures 1 <= id < IDS && id !in outFlight
      ensures tries == Tries(old(nextPktId), outFlight.Keys, 0) && tries <= |outFlight| + 2
      ensures nextPktId == After(old(nextPktId), tries) && id == PacketId(nextPktId)
    {
      ghost var counter, used := nextPktId, outFlight.Keys;
      tries := 0;
      while true
        invariant nextPktId == if tries == 0 then counter else After(counter, tries)
        invariant |used| == |outFlight| && AllTaken(counter, used, tries)
        invariant Tries(counter, used, 0) == Tries(counter, used, tries)
        decreases IDS - tries
      {
        SearchBound(counter, used, tries);
        AfterNext(counter, tries);
        nextPktId := (nextPktId + 1) % UINT32;
        tries := tries + 1;
        id := nextPktId % IDS;
        if id == 0 { id := 1; }
        if id !in outFlight { return; }
      }
    }

    /** Counts the QoS > 0 messages in flight against the limit, then records the message. */
    method AddOutFlightLimited(id: nat, m: Message, receiveMax: nat) returns (ok: bool)
      requires Valid() && 1 <= id < IDS
      modifies this`outFlight
      ensures Valid() && ok == (m.qos == 0 || Admits(old(outFlight), receiveMax))
      ensures outFlight == if ok && m.qos > 0 then old(outFlight)[id := InFlight(m, Published)] else old(outFlight)
    {
      if m.qos == 0 { return true; }
      if receiveMax > 0 {
        var n := CountPositive(outFlight);
        if n >= receiveMax { return false; }
      }
      outFlight := outFlight[id := InFlight(m, Published)];
      ok := true;
    }

    method AckOutFlight(id: nat) returns (m: Option<InFlight>)
      requires Valid()
      modifies this`outFlight
      ensures Valid() && outFlight == Acked(old(outFlight), id)
      ensures m == if id in old(outFlight) then Some(old(outFlight)[id]) else None
    {
      m := if id in outFlight then Some(outFlight[id]) else None;
      outFlight := outFlight - {id};
    }

    method SetOutFlightPhase(id: nat, phase: Phase)
      requires Valid()
      modifies this`outFlight
      ensures Valid() && outFlight == WithPhase(old(outFlight), id, phase)
    {
      if id in outFlight {
        outFlight := outFlight[id := outFlight[id].(phase := phase)];
      }
    }

    method Enqueue(m: Message) returns (kept: bool)
      requires Valid()
      modifies this`queue
      ensures Valid() && kept == !clean && queue == Pushed(clean, old(queue), m)
    {
      if clean { return false; }
      if |queue| >= MAX_QUEUE {
        queue := queue[1..];
      }
      queue := queue + [m];
      kept := true;
    }

    method DrainQueue() returns (ms: seq<Message>)
      requires Valid()
      modifies this`queue
      ensures Valid() && ms == old(queue) && queue == []
    {
      ms := queue;
      queue := [];
    }

    method SetConnected(c: bool)
      modifies this`connected
      ensures Life() == old(Life()).(connected := c)
    {
      connected := c;
    }

    method ClearDisconnectExpiry()
      modifies this`disconnectExpireAt
      ensures Life() == old(Life()).(deadline := None)
    {
      disconnectExpireAt := None;
    }

    method SetProtocolAndExpiry(version: nat, cleanSession: bool, expirySec: nat)
      modifies this`protocolLevel, this`sessionExpirySec, this`disconnectExpireAt
      ensures Life() == WithProtocol(old(Life()), version, cleanSession, expirySec)
    {
      protocolLevel := version;
      if version == V50 && !cleanSession {
        sessionExpirySec := expirySec;
        return;
      }
      if cleanSession {
        sessionExpirySec := 0;
        disconnectExpireAt := None;
      }
    }

    method UpdateSessionExpiryFromDisconnect(sec: nat)
      modifies this`sessionExpirySec
      ensures Life() == old(Life()).(expirySec := sec)
    {
      sessionExpirySec := sec;
    }

    method PrepareDisconnectExpiry(now: int) returns (purge: bool)
      modifies this`disconnectExpireAt
      ensures Life() == Scheduled(old(Life()), now) && purge == PurgesNow(old(Life()))
    {
      if clean || protocolLevel != V50 { return false; }
      if sessionExpirySec == 0 {
        disconnectExpireAt := None;
        return true;
      }
      if sessionExpirySec == NEVER {
        disconnectExpireAt := None;
        return false;
      }
      disconnectExpireAt := Some(now + sessionExpirySec * SECOND);
      purge := false;
    }

    method AddInFlight(id: nat, m: Message)
      modifies this`inFlight
      ensures inFlight == old(inFlight)[id := m]
    {
      inFlight := inFlight[id := m];
    }

    method AckInFlight(id: nat) returns (m: Option<Message>)
      modifies this`inFlight
      ensures inFlight == old(inFlight) - {id}
      ensures m == if id in old(inFlight) then Some(old(inFlight)[id]) else None
    {
      m := if id in inFlight then Some(inFlight[id]) else None;
      inFlight := inFlight - {id};
    }
  }

  lemma AfterNext(counter: nat, k: nat)
    requires counter < UINT32
    ensures ((if k == 0 then counter else After(counter, k)) + 1) % UINT32 == After(counter, k + 1)
  {
    var n := counter + k;
    var q := n / UINT32;
    assert n == UINT32 * q + n % UINT32;
    var r := n % UINT32;
    if r + 1 < UINT32 {
      assert n + 1 == UINT32 * q + (r + 1);
    } else {
      assert n + 1 == UINT32 * (q + 1);
    }
  }

  /** The counting loop of `AddOutFlightLimited`: every tracked message has QoS above 0. */
  method CountPositive(out: map<nat, InFlight>) returns (n: nat)
    requires Tracked(out)
    ensures n == |out|
  {
    n := 0;
    var left := out.Keys;
    while left != {}
      invariant left <= out.Keys && n + |left| == |out.Keys|
      decreases |left|
    {
      var id :| id in left;
      if out[id].msg.qos > 0 { n := n + 1; }
      left := left - {id};
    }
  }
}
