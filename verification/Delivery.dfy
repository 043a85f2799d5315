/** Outbound delivery on one session: what a deliver function does with each message it is
    handed, and what becomes of every message over a whole run. */
module Delivery {
  import opened Bytes
  import opened PacketIds
  import opened Sessions
  import opened Packets
  import opened Wire
  import opened Encoders

  /** The limits of a live connection (0 means none). */
  datatype Conn = Conn(version: nat, recvMax: nat, maxPacket: nat)

  datatype State = State(clean: bool, counter: nat, out: map<nat, InFlight>, queue: seq<Message>)

  predicate ValidState(s: State)
  {
    s.counter < UINT32 && Tracked(s.out) && |s.queue| <= MAX_QUEUE
  }

  predicate TooBig(c: Conn, m: Message)
  {
    c.maxPacket > 0 && ApproxSize(c.version, m.topic, |m.payload|, m.qos) % UINT32 > c.maxPacket
  }

  function Limit(c: Conn): nat
  {
    if c.version == V50 then c.recvMax else 0
  }

  /** The message needs a packet identifier. */
  predicate NeedsId(conn: Option<Conn>, m: Message)
  {
    conn.Some? && !TooBig(conn.value, m) && m.qos > 0
  }

  /** The identifier search ends: not every identifier is in flight. */
  predicate CanDeliver(s: State, conn: Option<Conn>, m: Message)
  {
    NeedsId(conn, m) ==> |s.out| < IDS - 1
  }

  function Kept(s: State, m: Message): State
  {
    s.(queue := Pushed(s.clean, s.queue, m))
  }

  ghost function NextCounter(s: State): (c: nat)
    requires |s.out| < IDS - 1
    ensures c < UINT32 && PacketId(c) !in s.out
  {
    assert |s.out.Keys| == |s.out|;
    After(s.counter, Tries(s.counter, s.out.Keys, 0))
  }

  /** One call of the deliver function of a connection; None once it is closed. */
  ghost function Deliver(s: State, conn: Option<Conn>, m: Message): (t: State)
    requires ValidState(s) && CanDeliver(s, conn, m)
    ensures ValidState(t) && t.clean == s.clean && |t.out| <= |s.out| + 1
  {
    if conn.None? || TooBig(conn.value, m) then Kept(s, m)
    else if m.qos == 0 then s
    else
      var c := NextCounter(s);
      var u := s.(counter := c);
      if Admits(s.out, Limit(conn.value)) then u.(out := s.out[PacketId(c) := InFlight(m, Published)]) else Kept(u, m)
  }

  /** The message goes onto the wire. */
  predicate Sends(s: State, conn: Option<Conn>, m: Message)
  {
    conn.Some? && !TooBig(conn.value, m) && (m.qos > 0 ==> Admits(s.out, Limit(conn.value)))
  }

  /** A message that is encoded must fit the four bytes of the remaining length. */
  predicate CanEncode(s: State, conn: Option<Conn>, m: Message)
  {
    Sends(s, conn, m) ==> Announced(m.topic, m.payload, m.qos, Section(conn.value.version, [])) <= MAX_REMAINING
  }

  /** Each message in turn can be delivered. */
  ghost predicate CanDeliverAll(s: State, conn: Option<Conn>, ms: seq<Message>)
    requires ValidState(s)
    decreases |ms|
  {
    ms != [] ==> CanDeliver(s, conn, ms[0]) && CanEncode(s, conn, ms[0]) && CanDeliverAll(Deliver(s, conn, ms[0]), conn, ms[1..])
  }

  /** Messages delivered one after another. */
  ghost function DeliverAll(s: State, conn: Option<Conn>, ms: seq<Message>): State
    requires ValidState(s) && CanDeliverAll(s, conn, ms)
    decreases |ms|
  {
    if ms == [] then s else DeliverAll(Deliver(s, conn, ms[0]), conn, ms[1..])
  }

  /** Enough for a drain: free identifiers for all the messages, and none too long to encode. */
  lemma {:induction false} RoomForAll(s: State, conn: Option<Conn>, ms: seq<Message>)
    requires ValidState(s) && |s.out| + |ms| < IDS
    requires forall m :: m in ms && conn.Some? ==> Announced(m.topic, m.payload, m.qos, Section(conn.value.version, [])) <= MAX_REMAINING
    ensures CanDeliverAll(s, conn, ms)
    decreases |ms|
  {
    if ms != [] { RoomForAll(Deliver(s, conn, ms[0]), conn, ms[1..]); }
  }

  // ----- whole runs --------------------------------------------------------------------

  /** What can happen to a session. `Handed` is a routed message given to the deliver function
      of the live connection, or of a closed one still held by the router (`stale`). */
  datatype Event =
    | Connected(conn: Conn)
    | Disconnected
    | Handed(msg: Message, stale: bool)
    | Drain
    | Redeliver(index: nat, stale: bool)
    | Acknowledged(id: nat)
    | PubrecReceived(id: nat)

  /** The session, the live connection, the messages a drain holds, and ledgers of all QoS > 0
      messages handed over, acknowledged and pushed out of the full queue. */
  datatype World = World(s: State, conn: Option<Conn>, transit: seq<Message>,
                         handed: multiset<Message>, acked: multiset<Message>, evicted: multiset<Message>)

  function Via(w: World, stale: bool): Option<Conn>
  {
    if stale then None else w.conn
  }

  predicate Enabled(w: World, e: Event)
  {
    match e
    case Handed(m, stale) => CanDeliver(w.s, Via(w, stale), m)
    case Redeliver(i, stale) => i < |w.transit| && CanDeliver(w.s, Via(w, stale), w.transit[i])
    case _ => true
  }

  function One(m: Message): multiset<Message>
  {
    if m.qos > 0 then multiset{m} else multiset{}
  }

  function Bag(ms: seq<Message>): multiset<Message>
  {
    if ms == [] then multiset{} else One(ms[0]) + Bag(ms[1..])
  }

  ghost function AnyId(out: map<nat, InFlight>): (id: nat)
    requires out != map[]
    ensures id in out
  {
    var id :| id in out;
    id
  }

  ghost function FlightBag(out: map<nat, InFlight>): multiset<Message>
    decreases |out|
  {
    if out == map[] then multiset{}
    else
      var id := AnyId(out);
      assert |out - {id}| < |out| by { SmallerMap(out, id); }
      multiset{out[id].msg} + FlightBag(out - {id})
  }

  lemma SmallerMap(out: map<nat, InFlight>, id: nat)
    requires id in out
    ensures |out - {id}| < |out|
  {
    assert out.Keys == (out - {id}).Keys + {id};
  }

  /** The message goes to the offline queue. */
  predicate Queues(s: State, conn: Option<Conn>, m: Message)
  {
    conn.None? || TooBig(conn.value, m) || (m.qos > 0 && !Admits(s.out, Limit(conn.value)))
  }

  /** What the step pushes out of the queue. */
  function Lost(s: State, conn: Option<Conn>, m: Message): multiset<Message>
  {
    if Queues(s, conn, m) then Bag(Evicted(s.clean, s.queue)) else multiset{}
  }

  ghost function Step(w: World, e: Event): (v: World)
    requires ValidState(w.s) && Enabled(w, e)
    ensures ValidState(v.s) && v.s.clean == w.s.clean
  {
    match e
    case Connected(c) => w.(conn := Some(c))
    case Disconnected => w.(conn := None)
    case Handed(m, stale) =>
      w.(s := Deliver(w.s, Via(w, stale), m), handed := w.handed + One(m), evicted := w.evicted + Lost(w.s, Via(w, stale), m))
    case Drain => w.(s := w.s.(queue := []), transit := w.transit + w.s.queue)
    case Redeliver(i, stale) =>
      var m := w.transit[i];
      w.(s := Deliver(w.s, Via(w, stale), m), transit := w.transit[..i] + w.transit[i + 1..],
         evicted := w.evicted + Lost(w.s, Via(w, stale), m))
    case Acknowledged(id) =>
      w.(s := w.s.(out := Acked(w.s.out, id)),
         acked := w.acked + (if id in w.s.out then multiset{w.s.out[id].msg} else multiset{}))
    case PubrecReceived(id) => w.(s := w.s.(out := WithPhase(w.s.out, id, Received)))
  }

  /** Every QoS > 0 message handed over is in exactly one place. */
  ghost predicate Conserved(w: World)
  {
    w.handed == Holding(w.s) + Bag(w.transit) + w.acked + w.evicted
  }

  lemma {:induction false} BagConcat(a: seq<Message>, b: seq<Message>)
    ensures Bag(a + b) == Bag(a) + Bag(b)
  {
    if a == [] {
      assert a + b == b;
    } else {
      assert (a + b)[0] == a[0] && (a + b)[1..] == a[1..] + b;
      BagConcat(a[1..], b);
    }
  }

  lemma BagOne(m: Message)
    ensures Bag([m]) == One(m)
  {
    assert [m][1..] == [];
  }

  lemma {:induction false} FlightBagRemove(out: map<nat, InFlight>, id: nat)
    requires id in out
    ensures FlightBag(out) == multiset{out[id].msg} + FlightBag(out - {id})
    decreases |out|
  {
    var k := AnyId(out);
    if k != id {
      var fewer := out - {k} - {id};
      assert fewer == out - {id} - {k};
      SmallerMap(out, k);
      SmallerMap(out, id);
      FlightBagRemove(out - {k}, id);
      FlightBagRemove(out - {id}, k);
      Swap(multiset{out[k].msg}, multiset{out[id].msg}, FlightBag(fewer));
    }
  }

  lemma Swap<T>(x: multiset<T>, y: multiset<T>, c: multiset<T>)
    ensures x + (y + c) == y + (x + c)
  {
  }

  lemma FlightBagAdd(out: map<nat, InFlight>, id: nat, f: InFlight)
    requires id !in out
    ensures FlightBag(out[id := f]) == FlightBag(out) + multiset{f.msg}
  {
    FlightBagRemove(out[id := f], id);
    assert out[id := f] - {id} == out;
  }

  lemma FlightBagPhase(out: map<nat, InFlight>, id: nat, phase: Phase)
    ensures FlightBag(WithPhase(out, id, phase)) == FlightBag(out)
  {
    if id in out {
      var next := WithPhase(out, id, phase);
      assert next[id].msg == out[id].msg;
      assert next - {id} == out - {id};
      hide FlightBag, WithPhase;
      FlightBagRemove(out, id);
      FlightBagRemove(next, id);
    }
  }

  lemma FlightBagAcked(out: map<nat, InFlight>, id: nat)
    ensures FlightBag(out) == FlightBag(Acked(out, id)) + (if id in out then multiset{out[id].msg} else multiset{})
  {
    if id in out { FlightBagRemove(out, id); } else { assert out - {id} == out; }
  }

  lemma PushedBag(queue: seq<Message>, m: Message)
    ensures Bag(Pushed(false, queue, m)) + Bag(Evicted(false, queue)) == Bag(queue) + One(m)
  {
    PushedKeepsOrder(queue, m);
    BagConcat(Evicted(false, queue), Pushed(false, queue, m));
    BagConcat(queue, [m]);
    BagOne(m);
  }

  /** What the session holds. */
  ghost function Holding(s: State): multiset<Message>
  {
    FlightBag(s.out) + Bag(s.queue)
  }

  /** One deliver call puts the message in flight, in the queue, or (QoS 0) on the wire. */
  lemma DeliverConserves(s: State, conn: Option<Conn>, m: Message)
    requires ValidState(s) && !s.clean && CanDeliver(s, conn, m)
    ensures Holding(Deliver(s, conn, m)) + Lost(s, conn, m) == Holding(s) + One(m)
  {
    var t := Deliver(s, conn, m);
    if Queues(s, conn, m) {
      assert t.out == s.out && t.queue == Pushed(false, s.queue, m);
      PushedBag(s.queue, m);
      Regroup(FlightBag(s.out), Bag(t.queue), Lost(s, conn, m), Bag(s.queue), One(m));
    } else if m.qos > 0 {
      assert t.queue == s.queue;
      FlightBagAdd(s.out, PacketId(NextCounter(s)), InFlight(m, Published));
      assert FlightBag(t.out) == FlightBag(s.out) + One(m);
    }
  }

  lemma Regroup<T>(f: multiset<T>, q: multiset<T>, l: multiset<T>, p: multiset<T>, m: multiset<T>)
    requires q + l == p + m
    ensures f + q + l == f + p + m
  {
    assert f + q + l == f + (q + l);
    assert f + p + m == f + (p + m);
  }

  lemma AroundIndex(ms: seq<Message>, i: nat)
    requires i < |ms|
    ensures ms == ms[..i + 1] + ms[i + 1..] && ms[..i + 1] == ms[..i] + [ms[i]]
  {
  }

  lemma BagTake(ms: seq<Message>, i: nat)
    requires i < |ms|
    ensures Bag(ms) == Bag(ms[..i] + ms[i + 1..]) + One(ms[i])
  {
    hide Bag, One;
    AroundIndex(ms, i);
    BagConcat(ms[..i + 1], ms[i + 1..]);
    BagConcat(ms[..i], [ms[i]]);
    BagConcat(ms[..i], ms[i + 1..]);
    BagOne(ms[i]);
    Regrouped(Bag(ms[..i]), One(ms[i]), Bag(ms[i + 1..]));
  }

  lemma Regrouped<T>(x: multiset<T>, y: multiset<T>, c: multiset<T>)
    ensures (x + y) + c == (x + c) + y
  {
  }

  lemma DrainConserves(s: State, transit: seq<Message>)
    ensures Holding(s.(queue := [])) + Bag(transit + s.queue) == Holding(s) + Bag(transit)
  {
    BagConcat(transit, s.queue);
  }

  lemma AckConserves(s: State, id: nat)
    ensures Holding(s) == Holding(s.(out := Acked(s.out, id))) + (if id in s.out then multiset{s.out[id].msg} else multiset{})
  {
    FlightBagAcked(s.out, id);
  }

  lemma DeliveredBalance<T>(handed: multiset<T>, h: multiset<T>, t: multiset<T>, a: multiset<T>, e: multiset<T>,
                            m: multiset<T>, h': multiset<T>, l: multiset<T>)
    requires handed == h + t + a + e && h' + l == h + m
    ensures handed + m == h' + t + a + (e + l)
  {
    assert handed + m == (h + m) + t + a + e;
    assert (h' + l) + t + a + e == h' + t + a + (e + l);
  }

  lemma HandedConserves(w: World, m: Message, stale: bool)
    requires ValidState(w.s) && !w.s.clean && Enabled(w, Handed(m, stale)) && Conserved(w)
    ensures Conserved(Step(w, Handed(m, stale)))
  {
    var via := Via(w, stale);
    DeliverConserves(w.s, via, m);
    DeliveredBalance(w.handed, Holding(w.s), Bag(w.transit), w.acked, w.evicted,
                     One(m), Holding(Deliver(w.s, via, m)), Lost(w.s, via, m));
  }

  lemma RedeliverConserves(w: World, i: nat, stale: bool)
    requires ValidState(w.s) && !w.s.clean && Enabled(w, Redeliver(i, stale)) && Conserved(w)
    ensures Conserved(Step(w, Redeliver(i, stale)))
  {
    var via, m := Via(w, stale), w.transit[i];
    var left := w.transit[..i] + w.transit[i + 1..];
    DeliverConserves(w.s, via, m);
    BagTake(w.transit, i);
    var before := Holding(w.s) + Bag(left) + w.acked + w.evicted;
    assert w.handed == before + One(m);
    DeliveredBalance(before, Holding(w.s), Bag(left), w.acked, w.evicted,
                     One(m), Holding(Deliver(w.s, via, m)), Lost(w.s, via, m));
  }

  lemma StepConserves(w: World, e: Event)
    requires ValidState(w.s) && !w.s.clean && Enabled(w, e) && Conserved(w)
    ensures Conserved(Step(w, e))
  {
    match e
    case Handed(m, stale) => HandedConserves(w, m, stale);
    case Drain => DrainConserves(w.s, w.transit);
    case Redeliver(i, stale) => RedeliverConserves(w, i, stale);
    case Acknowledged(id) => AckConserves(w.s, id);
    case PubrecReceived(id) => FlightBagPhase(w.s.out, id, Received);
    case _ =>
  }

  const FRESH := World(State(false, 0, map[], []), None, [], multiset{}, multiset{}, multiset{})

  /** A run of events, each enabled when it happens. */
  ghost predicate Reaches(w: World, es: seq<Event>, v: World)
    decreases |es|
  {
    if es == [] then v == w
    else ValidState(w.s) && Enabled(w, es[0]) && Reaches(Step(w, es[0]), es[1..], v)
  }

  lemma {:induction false} RunConserves(w: World, es: seq<Event>, v: World)
    requires ValidState(w.s) && !w.s.clean && Conserved(w) && Reaches(w, es, v)
    ensures ValidState(v.s) && Conserved(v)
    decreases |es|
  {
    if es != [] {
      StepConserves(w, es[0]);
      RunConserves(Step(w, es[0]), es[1..], v);
    }
  }

  /** Conservation: in every run of a persistent session, the QoS > 0 messages handed to the
      deliver function are those in flight, queued, held by a drain, acknowledged or evicted. */
  lemma Conservation(es: seq<Event>, w: World)
    requires Reaches(FRESH, es, w)
    ensures Conserved(w) && ValidState(w.s)
  {
    RunConserves(FRESH, es, w);
  }

  /** A deliver call takes a free identifier or none. */
  lemma DeliverKeeps(s: State, conn: Option<Conn>, m: Message, id: nat)
    requires ValidState(s) && CanDeliver(s, conn, m) && id in s.out
    ensures var t := Deliver(s, conn, m);
            id in t.out && t.out[id] == s.out[id]
  {
  }

  /** No step overwrites or drops an in-flight message, except the acknowledgement of it. */
  lemma InFlightKept(w: World, e: Event, id: nat)
    requires ValidState(w.s) && Enabled(w, e) && id in w.s.out && e != Acknowledged(id)
    ensures id in Step(w, e).s.out && Step(w, e).s.out[id].msg == w.s.out[id].msg
    ensures Step(w, e).s.out[id].phase == if e == PubrecReceived(id) then Received else w.s.out[id].phase
  {
    match e
    case Handed(m, stale) => DeliverKeeps(w.s, Via(w, stale), m, id);
    case Redeliver(i, stale) => DeliverKeeps(w.s, Via(w, stale), w.transit[i], id);
    case _ =>
  }

  /** In every run an in-flight message keeps its identifier until that is acknowledged, and is in
      the received phase exactly once its PUBREC has come. */
  lemma {:induction false} InFlightUntilAcked(w: World, es: seq<Event>, v: World, id: nat)
    requires ValidState(w.s) && Reaches(w, es, v) && id in w.s.out && Acknowledged(id) !in es
    ensures id in v.s.out && v.s.out[id].msg == w.s.out[id].msg
    ensures v.s.out[id].phase == if PubrecReceived(id) in es then Received else w.s.out[id].phase
    decreases |es|
  {
    if es != [] {
      assert es == [es[0]] + es[1..];
      InFlightKept(w, es[0], id);
      InFlightUntilAcked(Step(w, es[0]), es[1..], v, id);
    }
  }

  /** Draining on reconnect is a run of the events above. */
  lemma {:induction false} DrainIsRedelivery(w: World)
    requires ValidState(w.s) && CanDeliverAll(w.s, w.conn, w.transit)
    ensures exists v :: Reaches(w, seq(|w.transit|, i => Redeliver(0, false)), v)
                        && v.s == DeliverAll(w.s, w.conn, w.transit) && v.transit == []
    decreases |w.transit|
  {
    var n := |w.transit|;
    var es := seq(n, i => Redeliver(0, false));
    if n == 0 {
      assert Reaches(w, es, w);
    } else {
      var next := Step(w, Redeliver(0, false));
      assert next.transit == w.transit[1..];
      DrainIsRedelivery(next);
      assert es[1..] == seq(n - 1, i => Redeliver(0, false));
      var v :| Reaches(next, es[1..], v) && v.s == DeliverAll(next.s, w.conn, next.transit) && v.transit == [];
      assert Reaches(w, es, v);
    }
  }

  // ----- client limits -----------------------------------------------------------------

  /** No connection starts or ends. */
  predicate SameConnection(es: seq<Event>)
  {
    forall i :: 0 <= i < |es| ==> !es[i].Connected? && !es[i].Disconnected?
  }

  lemma StepWithinReceiveMax(w: World, e: Event)
    requires ValidState(w.s) && Enabled(w, e) && w.conn.Some? && !e.Connected? && !e.Disconnected?
    ensures Step(w, e).conn == w.conn
    ensures Limit(w.conn.value) > 0 ==> |Step(w, e).s.out| <= |w.s.out| || |Step(w, e).s.out| <= Limit(w.conn.value)
  {
    hide Deliver, Acked, WithPhase, Lost;
    match e
    case Handed(m, stale) => DeliverWithinReceiveMax(w.s, Via(w, stale), m);
    case Redeliver(i, stale) => DeliverWithinReceiveMax(w.s, Via(w, stale), w.transit[i]);
    case Acknowledged(id) => AckShrinks(w.s.out, id);
    case PubrecReceived(id) => PhaseKeepsSize(w.s.out, id);
    case Drain =>
  }

  lemma AckShrinks(out: map<nat, InFlight>, id: nat)
    ensures |Acked(out, id)| <= |out|
  {
    assert out.Keys == Acked(out, id).Keys + (if id in out then {id} else {});
  }

  lemma PhaseKeepsSize(out: map<nat, InFlight>, id: nat)
    ensures |WithPhase(out, id, Received)| == |out|
  {
    assert WithPhase(out, id, Received).Keys == out.Keys;
  }

  lemma DeliverWithinReceiveMax(s: State, conn: Option<Conn>, m: Message)
    requires ValidState(s) && CanDeliver(s, conn, m)
    ensures |Deliver(s, conn, m).out| <= |s.out|
            || (conn.Some? && (Limit(conn.value) > 0 ==> |Deliver(s, conn, m).out| <= Limit(conn.value)))
  {
  }

  /** Flow control: while a connection lasts, the messages in flight number at most its Receive
      Maximum, or what the session brought with it if that was more. */
  lemma {:induction false} WithinReceiveMax(w: World, es: seq<Event>, v: World, bound: nat)
    requires ValidState(w.s) && Reaches(w, es, v) && SameConnection(es) && w.conn.Some?
    requires w.conn.value.version == V50 && 0 < w.conn.value.recvMax <= bound && |w.s.out| <= bound
    ensures |v.s.out| <= bound
    decreases |es|
  {
    if es != [] {
      StepWithinReceiveMax(w, es[0]);
      WithinReceiveMax(Step(w, es[0]), es[1..], v, bound);
    }
  }
}
