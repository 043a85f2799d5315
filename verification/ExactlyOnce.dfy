/** Inbound QoS 2: a sender, two lossy order-preserving channels and the broker's session.
    Packets carry a stamp, 2g for the PUBLISH and PUBREC of the g-th message on an identifier
    and 2g + 1 for its PUBREL and PUBCOMP. Stamps are history: neither side reads them. */
module ExactlyOnce {
  import opened Bytes
  import opened Sessions

  // ----- the broker's handlers ---------------------------------------------------------

  /** PUBLISH at QoS 2: stored unless one with this identifier already is. */
  function OnPublish(inFlight: map<nat, Message>, id: nat, m: Message): map<nat, Message>
  {
    if id in inFlight then inFlight else inFlight[id := m]
  }

  /** PUBREL: the stored message, if any, is routed. */
  function OnPubrel(inFlight: map<nat, Message>, id: nat): Option<Message>
  {
    if id in inFlight then Some(inFlight[id]) else None
  }

  // ----- the system --------------------------------------------------------------------

  datatype Up = Publish(id: nat, msg: Message, stamp: int) | Pubrel(id: nat, stamp: int)

  datatype Down = Pubrec(id: nat, stamp: int) | Pubcomp(id: nat, stamp: int)

  /** One identifier at the sender: the stamp it repeats, and the messages begun. */
  datatype Sender = Sender(stamp: int, msgs: seq<Message>)

  /** One message the broker routed, with the identifier it came under. */
  datatype Routed = Routed(id: nat, msg: Message)

  datatype World = World(
    senders: map<nat, Sender>, up: seq<Up>, down: seq<Down>,
    inFlight: map<nat, Message>, routed: seq<Routed>, progress: map<nat, int>)

  function SenderOf(w: World, id: nat): Sender
  {
    if id in w.senders then w.senders[id] else Sender(0, [])
  }

  /** The stamp the broker handled last on an identifier, -1 before any. */
  function ProgressOf(w: World, id: nat): int
  {
    if id in w.progress then w.progress[id] else -1
  }

  predicate Idle(s: Sender)
  {
    s.stamp % 2 == 0 && |s.msgs| == s.stamp / 2
  }

  datatype Event =
    | Begin(id: nat, msg: Message)
    | Send(id: nat)
    | BrokerReceives
    | SenderReceives
    | LoseUp(index: nat)
    | LoseDown(index: nat)
    | Reconnect

  predicate Enabled(w: World, e: Event)
  {
    match e
    case Begin(id, m) => Idle(SenderOf(w, id))
    case Send(id) => !Idle(SenderOf(w, id)) && 0 <= SenderOf(w, id).stamp / 2 < |SenderOf(w, id).msgs|
    case BrokerReceives => w.up != []
    case SenderReceives => w.down != []
    case LoseUp(i) => i < |w.up|
    case LoseDown(i) => i < |w.down|
    case Reconnect => true
  }

  /** What the sender repeats: PUBLISH until PUBREC, then PUBREL until PUBCOMP. */
  function ToSend(s: Sender, id: nat): Up
    requires 0 <= s.stamp / 2 < |s.msgs|
  {
    if s.stamp % 2 == 0 then Publish(id, s.msgs[s.stamp / 2], s.stamp) else Pubrel(id, s.stamp)
  }

  /** The sender moves on when the answer it waits for arrives, and ignores any other. */
  predicate Advances(s: Sender, d: Down)
  {
    !Idle(s) && d.Pubrec? == (s.stamp % 2 == 0)
  }

  function BrokerStep(w: World): World
    requires w.up != []
  {
    var p := w.up[0];
    var v := w.(up := w.up[1..], progress := w.progress[p.id := p.stamp]);
    match p
    case Publish(id, m, t) => v.(inFlight := OnPublish(w.inFlight, id, m), down := w.down + [Pubrec(id, t)])
    case Pubrel(id, t) =>
      var m := OnPubrel(w.inFlight, id);
      v.(inFlight := w.inFlight - {id}, down := w.down + [Pubcomp(id, t)],
         routed := w.routed + (if m.Some? then [Routed(id, m.value)] else []))
  }

  function SenderStep(w: World): World
    requires w.down != []
  {
    var d := w.down[0];
    var s := SenderOf(w, d.id);
    var v := w.(down := w.down[1..]);
    if Advances(s, d) then v.(senders := w.senders[d.id := s.(stamp := s.stamp + 1)]) else v
  }

  function Without<T>(s: seq<T>, i: nat): seq<T>
    requires i < |s|
  {
    s[..i] + s[i + 1..]
  }

  function Step(w: World, e: Event): World
    requires Enabled(w, e)
  {
    match e
    case Begin(id, m) =>
      var s := SenderOf(w, id);
      w.(senders := w.senders[id := s.(msgs := s.msgs + [m])])
    case Send(id) => w.(up := w.up + [ToSend(SenderOf(w, id), id)])
    case BrokerReceives => BrokerStep(w)
    case SenderReceives => SenderStep(w)
    case LoseUp(i) => w.(up := Without(w.up, i))
    case LoseDown(i) => w.(down := Without(w.down, i))
    case Reconnect => w.(up := [], down := [])
  }

  // ----- the invariant, one identifier at a time -----------------------------------------

  /** The messages routed under an identifier, in order. */
  function RoutedUnder(log: seq<Routed>, id: nat): seq<Message>
  {
    if log == [] then []
    else
      var rest := RoutedUnder(log[..|log| - 1], id);
      if log[|log| - 1].id == id then rest + [log[|log| - 1].msg] else rest
  }

  /** A packet to the broker is between what the broker has handled and what the sender is at,
      and a PUBLISH carries the message of its stamp. */
  predicate UpFits(p: Up, low: int, s: Sender)
  {
    && low <= p.stamp <= s.stamp && 0 <= p.stamp / 2 < |s.msgs|
    && p.Publish? == (p.stamp % 2 == 0) && (p.Publish? ==> p.msg == s.msgs[p.stamp / 2])
  }

  predicate DownFits(d: Down, high: int, s: Sender)
  {
    s.stamp - 1 <= d.stamp <= high && d.Pubrec? == (d.stamp % 2 == 0)
  }

  ghost predicate UpOk(up: seq<Up>, id: nat, low: int, s: Sender)
  {
    && (forall i :: 0 <= i < |up| && up[i].id == id ==> UpFits(up[i], low, s))
    && (forall i, j :: 0 <= i < j < |up| && up[i].id == id && up[j].id == id ==> up[i].stamp <= up[j].stamp)
  }

  ghost predicate DownOk(down: seq<Down>, id: nat, high: int, s: Sender)
  {
    && (forall i :: 0 <= i < |down| && down[i].id == id ==> DownFits(down[i], high, s))
    && (forall i, j :: 0 <= i < j < |down| && down[i].id == id && down[j].id == id ==> down[i].stamp <= down[j].stamp)
  }

  /** The sender is at the stamp the broker handled last or one beyond. */
  predicate InStep(s: Sender, b: int)
  {
    && 0 <= s.stamp && s.stamp - 1 <= b <= s.stamp
    && (|s.msgs| == s.stamp / 2 + 1 || (Idle(s) && b < s.stamp))
  }

  /** The broker holds the message exactly between its PUBLISH and its PUBREL, and has routed
      exactly the messages whose PUBREL it handled. */
  predicate HoldsRight(w: World, id: nat, s: Sender, b: int)
    requires InStep(s, b)
  {
    && (id in w.inFlight <==> b % 2 == 0) && (id in w.inFlight ==> w.inFlight[id] == s.msgs[b / 2])
    && RoutedUnder(w.routed, id) == s.msgs[..(b + 1) / 2]
  }

  ghost predicate Good(w: World, id: nat)
  {
    var s, b := SenderOf(w, id), ProgressOf(w, id);
    InStep(s, b) && HoldsRight(w, id, s, b) && UpOk(w.up, id, b, s) && DownOk(w.down, id, b, s)
  }

  // ----- every step keeps it -------------------------------------------------------------

  lemma BeginKeeps(w: World, id: nat, m: Message, k: nat)
    requires Good(w, k) && Enabled(w, Begin(id, m))
    ensures Good(Step(w, Begin(id, m)), k)
  {
  }

  lemma SendKeeps(w: World, id: nat, k: nat)
    requires Good(w, k) && Enabled(w, Send(id))
    ensures Good(Step(w, Send(id)), k)
  {
  }

  lemma LoseUpKeeps(w: World, i: nat, k: nat)
    requires Good(w, k) && i < |w.up|
    ensures Good(Step(w, LoseUp(i)), k)
  {
    var v := Without(w.up, i);
    assert forall j :: 0 <= j < |v| ==> v[j] == w.up[if j < i then j else j + 1];
  }

  lemma LoseDownKeeps(w: World, i: nat, k: nat)
    requires Good(w, k) && i < |w.down|
    ensures Good(Step(w, LoseDown(i)), k)
  {
    var v := Without(w.down, i);
    assert forall j :: 0 <= j < |v| ==> v[j] == w.down[if j < i then j else j + 1];
  }

  // The channels, one end at a time.

  lemma UpTail(up: seq<Up>, id: nat, low: int, s: Sender)
    requires UpOk(up, id, low, s) && up != []
    ensures UpOk(up[1..], id, if up[0].id == id then up[0].stamp else low, s)
  {
  }

  lemma UpLater(up: seq<Up>, id: nat, low: int, s: Sender, t: Sender)
    requires UpOk(up, id, low, s) && s.stamp <= t.stamp && s.msgs == t.msgs
    ensures UpOk(up, id, low, t)
  {
  }

  lemma DownPush(down: seq<Down>, id: nat, high: int, s: Sender, d: Down)
    requires DownOk(down, id, high, s) && (d.id == id ==> high <= d.stamp && DownFits(d, d.stamp, s))
    ensures DownOk(down + [d], id, if d.id == id then d.stamp else high, s)
  {
  }

  /** Once the answer at the head is taken, the answers behind it are no older. */
  lemma DownTail(down: seq<Down>, id: nat, high: int, s: Sender, t: Sender)
    requires DownOk(down, id, high, s) && down != []
    requires t == s || (down[0].id == id && down[0].stamp == s.stamp && t == s.(stamp := s.stamp + 1))
    ensures DownOk(down[1..], id, high, t)
  {
  }

  lemma SenderKeeps(w: World, k: nat)
    requires Good(w, k) && w.down != []
    ensures Good(SenderStep(w), k)
  {
    var s, b, d := SenderOf(w, k), ProgressOf(w, k), w.down[0];
    var t := SenderOf(SenderStep(w), k);
    if d.id == k {
      assert DownFits(d, b, s);
      AdvancesAtStamp(s, b, d);
    }
    DownTail(w.down, k, b, s, t);
    UpLater(w.up, k, b, s, t);
  }

  /** The sender moves on only for the answer to what it repeats. */
  lemma AdvancesAtStamp(s: Sender, b: int, d: Down)
    requires InStep(s, b) && DownFits(d, b, s)
    ensures Advances(s, d) ==> d.stamp == s.stamp && InStep(s.(stamp := s.stamp + 1), b)
  {
  }

  lemma RoutedAppend(log: seq<Routed>, r: Routed, id: nat)
    ensures RoutedUnder(log + [r], id) == if r.id == id then RoutedUnder(log, id) + [r.msg] else RoutedUnder(log, id)
  {
    assert (log + [r])[..|log|] == log;
  }

  /** A repeated packet changes nothing; a new one moves the broker on by one stamp. */
  lemma BrokerHoldsRight(w: World, k: nat)
    requires Good(w, k) && w.up != [] && w.up[0].id == k
    ensures InStep(SenderOf(w, k), w.up[0].stamp) && HoldsRight(BrokerStep(w), k, SenderOf(w, k), w.up[0].stamp)
  {
    var p, s, b := w.up[0], SenderOf(w, k), ProgressOf(w, k);
    assert UpFits(p, b, s);
    hide UpOk, DownOk, SenderOf, ProgressOf;
    if p.Pubrel? {
      if k in w.inFlight {
        RoutedAppend(w.routed, Routed(k, w.inFlight[k]), k);
        assert s.msgs[..b / 2 + 1] == s.msgs[..b / 2] + [s.msgs[b / 2]];
      } else {
        assert w.routed + [] == w.routed;
      }
    }
  }

  lemma OthersUntouched(w: World, k: nat)
    requires w.up != [] && w.up[0].id != k
    ensures var v := BrokerStep(w);
            && SenderOf(v, k) == SenderOf(w, k) && ProgressOf(v, k) == ProgressOf(w, k)
            && (k in v.inFlight <==> k in w.inFlight) && (k in w.inFlight ==> v.inFlight[k] == w.inFlight[k])
            && RoutedUnder(v.routed, k) == RoutedUnder(w.routed, k)
  {
    var p := w.up[0];
    if p.Pubrel? && p.id in w.inFlight {
      RoutedAppend(w.routed, Routed(p.id, w.inFlight[p.id]), k);
    } else {
      assert w.routed + [] == w.routed;
    }
  }

  lemma BrokerKeeps(w: World, k: nat)
    requires Good(w, k) && w.up != []
    ensures Good(BrokerStep(w), k)
  {
    var p, s, b := w.up[0], SenderOf(w, k), ProgressOf(w, k);
    var d := if p.Publish? then Pubrec(p.id, p.stamp) else Pubcomp(p.id, p.stamp);
    if p.id == k {
      BrokerHoldsRight(w, k);
      assert UpFits(p, b, s);
    } else {
      OthersUntouched(w, k);
    }
    UpTail(w.up, k, b, s);
    DownPush(w.down, k, b, s, d);
  }

  lemma StepKeeps(w: World, e: Event, k: nat)
    requires Good(w, k) && Enabled(w, e)
    ensures Good(Step(w, e), k)
  {
    match e
    case Begin(id, m) => BeginKeeps(w, id, m, k);
    case Send(id) => SendKeeps(w, id, k);
    case BrokerReceives => BrokerKeeps(w, k);
    case SenderReceives => SenderKeeps(w, k);
    case LoseUp(i) => LoseUpKeeps(w, i, k);
    case LoseDown(i) => LoseDownKeeps(w, i, k);
    case Reconnect =>
  }

  // ----- whole runs ----------------------------------------------------------------------

  const START := World(map[], [], [], map[], [], map[])

  predicate Reaches(w: World, es: seq<Event>, v: World)
    decreases |es|
  {
    if es == [] then v == w else Enabled(w, es[0]) && Reaches(Step(w, es[0]), es[1..], v)
  }

  lemma {:induction false} RunKeeps(w: World, es: seq<Event>, v: World, k: nat)
    requires Good(w, k) && Reaches(w, es, v)
    ensures Good(v, k)
    decreases |es|
  {
    if es != [] {
      StepKeeps(w, es[0], k);
      RunKeeps(Step(w, es[0]), es[1..], v, k);
    }
  }

  /** The messages of an identifier whose PUBCOMP the sender has received. */
  function Completed(s: Sender): int
  {
    s.stamp / 2
  }

  /** Exactly once: in every run, for every identifier, the messages routed are a prefix of the
      messages the sender began, in order and without repetition, and the prefix contains every
      message whose PUBCOMP has arrived. */
  lemma RoutedExactlyOnce(es: seq<Event>, w: World, id: nat)
    requires Reaches(START, es, w)
    ensures var routed, s := RoutedUnder(w.routed, id), SenderOf(w, id);
            routed <= s.msgs && Completed(s) <= |routed| <= (s.stamp + 1) / 2
  {
    RunKeeps(START, es, w, id);
  }

  /** The handshake cannot get stuck: from every reachable state, one undisturbed exchange on a
      fresh connection moves a busy sender on. */
  lemma CanAlwaysAdvance(es: seq<Event>, w: World, id: nat)
    requires Reaches(START, es, w) && !Idle(SenderOf(w, id))
    ensures var w1 := Step(w, Reconnect);
            && Enabled(w1, Send(id)) && var w2 := Step(w1, Send(id));
            && Enabled(w2, BrokerReceives) && var w3 := Step(w2, BrokerReceives);
            && Enabled(w3, SenderReceives)
            && SenderOf(Step(w3, SenderReceives), id).stamp == SenderOf(w, id).stamp + 1
  {
    RunKeeps(START, es, w, id);
  }
}
