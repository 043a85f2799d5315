/** The session store: sessions resumed and replaced on CONNECT, scheduled on disconnect and
    purged by the sweep. */
module Expiry {
  import opened Bytes
  import opened Sessions

  type Lives = map<Text, Life>

  /** What happens to sessions. A DISCONNECT may carry a new expiry interval; a connection that
      just breaks carries none. */
  datatype Event =
    | Connect(id: Text, version: nat, clean: bool, expirySec: nat)
    | Disconnect(id: Text, expiry: Option<nat>, now: int)
    | Sweep(now: int)

  /** The session a CONNECT starts from. */
  function Base(ls: Lives, id: Text, clean: bool): Life
  {
    if !clean && id in ls && !ls[id].clean then ls[id] else NewLife(clean)
  }

  function Connected(ls: Lives, id: Text, version: nat, clean: bool, expirySec: nat): Lives
  {
    var base := Base(ls, id, clean).(deadline := None);
    ls[id := WithProtocol(base, version, clean, if version == V50 then expirySec else 0).(connected := true)]
  }

  function Ended(l: Life, expiry: Option<nat>): Life
  {
    (if expiry.Some? then l.(expirySec := expiry.value) else l).(connected := false)
  }

  function Disconnected(ls: Lives, id: Text, expiry: Option<nat>, now: int): Lives
    requires id in ls
  {
    var l := Ended(ls[id], expiry);
    if l.clean || PurgesNow(l) then ls - {id} else ls[id := Scheduled(l, now)]
  }

  function Swept(ls: Lives, now: int): Lives
  {
    map id | id in ls && !IsExpired(ls[id], now) :: ls[id]
  }

  /** A client connects only after its previous connection has been cleaned up. */
  predicate Enabled(ls: Lives, e: Event)
  {
    match e
    case Connect(id, _, _, _) => id in ls ==> !ls[id].connected
    case Disconnect(id, x, _) => id in ls && ls[id].connected && (x.Some? ==> ls[id].level == V50)
    case Sweep(_) => true
  }

  function Step(ls: Lives, e: Event): Lives
    requires Enabled(ls, e)
  {
    match e
    case Connect(id, version, clean, x) => Connected(ls, id, version, clean, x)
    case Disconnect(id, x, now) => Disconnected(ls, id, x, now)
    case Sweep(now) => Swept(ls, now)
  }

  predicate Reaches(ls: Lives, es: seq<Event>, ks: Lives)
    decreases |es|
  {
    if es == [] then ks == ls else Enabled(ls, es[0]) && Reaches(Step(ls, es[0]), es[1..], ks)
  }

  // ----- the store ----------------------------------------------------------------------

  class Store {
    var data: map<Text, Session>

    constructor ()
      ensures Valid() && Model() == map[]
    {
      data := map[];
    }

    /** Each session belongs to one client. */
    ghost predicate Valid()
      reads this
    {
      forall a, b :: a in data && b in data && a != b ==> data[a] != data[b]
    }

    ghost function Model(): Lives
      reads this, data.Values
    {
      map id | id in data :: data[id].Life()
    }

    method GetOrCreate(id: Text, clean: bool) returns (s: Session, existed: bool)
      requires Valid()
      modifies this
      ensures Valid() && id in data && data[id] == s
      ensures existed == (!clean && id in old(data) && !old(data)[id].clean)
      ensures if existed then data == old(data) else fresh(s) && data == old(data)[id := s] && s.Life() == NewLife(clean) && s.Empty()
    {
      if clean {
        s := new Session(true);
        data := data[id := s];
        return s, false;
      }
      if id in data && !data[id].clean {
        return data[id], true;
      }
      s := new Session(false);
      data := data[id := s];
      existed := false;
    }

    /** The session part of `handleConnect`. A resumed session is the same object and the frame
        leaves its counter, in-flight messages and queue alone, as it does every other session. */
    method HandleConnect(id: Text, version: nat, clean: bool, expirySec: nat) returns (present: bool)
      requires Valid()
      modifies this, data.Values`connected, data.Values`protocolLevel, data.Values`sessionExpirySec, data.Values`disconnectExpireAt
      ensures Valid() && Model() == Connected(old(Model()), id, version, clean, expirySec)
      ensures present == (!clean && id in old(data) && !old(data)[id].clean)
      ensures id in data && if present then data == old(data) else data == old(data)[id := data[id]] && fresh(data[id]) && data[id].Empty()
    {
      hide WithProtocol;
      ghost var was := Model();
      var s;
      s, present := GetOrCreate(id, clean);
      assert present ==> s.Life() == was[id];
      Renew(s, version, clean, expirySec);
      assert s.Life() == Connected(was, id, version, clean, expirySec)[id];
      forall k | k in data && k != id ensures data[k].Life() == was[k] {
        assert data[k] == old(data)[k];
      }
      ModelIs(Connected(was, id, version, clean, expirySec));
    }

    lemma ModelIs(ls: Lives)
      requires data.Keys == ls.Keys && forall id :: id in data ==> data[id].Life() == ls[id]
      ensures Model() == ls
    {
    }

    method Renew(s: Session, version: nat, clean: bool, expirySec: nat)
      modifies s`connected, s`protocolLevel, s`sessionExpirySec, s`disconnectExpireAt
      ensures s.Life() == WithProtocol(old(s.Life()).(deadline := None), version, clean, if version == V50 then expirySec else 0).(connected := true)
    {
      s.ClearDisconnectExpiry();
      var sec := 0;
      if version == V50 { sec := expirySec; }
      s.SetProtocolAndExpiry(version, clean, sec);
      s.SetConnected(true);
    }

    /** `handleDisconnect` and the session part of `cleanup`. The frame keeps the messages of every
        session, this one included. */
    method HandleDisconnect(id: Text, expiry: Option<nat>, now: int)
      requires Valid() && id in data
      modifies this, data.Values`connected, data.Values`protocolLevel, data.Values`sessionExpirySec, data.Values`disconnectExpireAt
      ensures Valid() && Model() == Disconnected(old(Model()), id, expiry, now)
      ensures data == if id in Model() then old(data) else old(data) - {id}
    {
      ghost var was := Model();
      var s := data[id];
      var purge := End(s, expiry, now);
      if purge { data := data - {id}; }
      forall k | k in data && k != id ensures data[k].Life() == was[k] {
        assert data[k] != s;
      }
      ModelIs(Disconnected(was, id, expiry, now));
    }

    /** True if the session is not kept. */
    method End(s: Session, expiry: Option<nat>, now: int) returns (purge: bool)
      modifies s`connected, s`sessionExpirySec, s`disconnectExpireAt
      ensures var l := Ended(old(s.Life()), expiry);
              purge == (l.clean || PurgesNow(l)) && (!purge ==> s.Life() == Scheduled(l, now))
    {
      if expiry.Some? { s.UpdateSessionExpiryFromDisconnect(expiry.value); }
      s.SetConnected(false);
      if s.clean { return true; }
      purge := s.PrepareDisconnectExpiry(now);
    }

    /** The sessions are listed, then visited one by one. */
    method ExpiredIds(now: int) returns (ids: set<Text>)
      ensures forall id :: id in ids <==> id in data && IsExpired(data[id].Life(), now)
    {
      ids := {};
      var left := data.Keys;
      while left != {}
        invariant left <= data.Keys
        invariant forall id :: id in ids <==> id in data && id !in left && IsExpired(data[id].Life(), now)
        decreases |left|
      {
        var id :| id in left;
        left := left - {id};
        if IsExpired(data[id].Life(), now) { ids := ids + {id}; }
      }
    }

    method Purge(id: Text)
      requires Valid()
      modifies this
      ensures Valid() && data == old(data) - {id}
    {
      data := data - {id};
    }

    /** One pass of the sweep purges the expired sessions. */
    method SweepOnce(now: int) returns (purged: set<Text>)
      requires Valid()
      modifies this
      ensures Valid() && Model() == Swept(old(Model()), now)
      ensures purged == old(Model()).Keys - Model().Keys && data == old(data) - purged
    {
      ghost var was := Model();
      purged := ExpiredIds(now);
      assert forall id :: id in data ==> data[id].Life() == was[id];
      PurgeAll(purged);
      ModelIs(Swept(was, now));
    }

    method PurgeAll(ids: set<Text>)
      requires Valid()
      modifies this
      ensures Valid() && data == old(data) - ids
    {
      var left := ids;
      while left != {}
        invariant Valid() && left <= ids && data == old(data) - (ids - left)
        decreases |left|
      {
        var id :| id in left;
        Purge(id);
        left := left - {id};
      }
    }
  }

  /** A client goes away, a sweep passes, and the client comes back: its session is resumed with
      all its messages if the sweep spared it, and otherwise replaced by an empty one. */
  method AwayAndBack(store: Store, id: Text, expiry: Option<nat>, now: int, later: int, version: nat, expirySec: nat) returns (present: bool)
    requires store.Valid() && id in store.data && !store.data[id].clean
    modifies store, store.data.Values`connected, store.data.Values`protocolLevel,
             store.data.Values`sessionExpirySec, store.data.Values`disconnectExpireAt
    ensures present <==> id in Swept(Disconnected(old(store.Model()), id, expiry, now), later)
    ensures id in store.data && (!present ==> store.data[id].Empty())
    ensures present ==> store.data[id] == old(store.data[id]) && store.data[id].nextPktId == old(store.data[id].nextPktId)
                        && store.data[id].outFlight == old(store.data[id].outFlight)
                        && store.data[id].inFlight == old(store.data[id].inFlight) && store.data[id].queue == old(store.data[id].queue)
  {
    hide Store.Valid, Session.Empty, WithProtocol, Scheduled;
    store.HandleDisconnect(id, expiry, now);
    var _ := store.SweepOnce(later);
    present := store.HandleConnect(id, version, false, expirySec);
  }

  // ----- laws of every run ----------------------------------------------------------------

  /** A connected session has no deadline; only disconnected version 5 sessions have one. */
  predicate Sane(l: Life)
  {
    && (l.connected ==> l.deadline.None?)
    && (l.deadline.Some? ==> !l.clean && l.level == V50)
    && (!l.connected ==> !l.clean)
  }

  predicate AllSane(ls: Lives)
  {
    forall id :: id in ls ==> Sane(ls[id])
  }

  lemma StepKeepsSane(ls: Lives, e: Event)
    requires AllSane(ls) && Enabled(ls, e)
    ensures AllSane(Step(ls, e))
  {
  }

  lemma {:induction false} RunIsSane(ls: Lives, es: seq<Event>, ks: Lives)
    requires AllSane(ls) && Reaches(ls, es, ks)
    ensures AllSane(ks)
    decreases |es|
  {
    if es != [] {
      StepKeepsSane(ls, es[0]);
      RunIsSane(Step(ls, es[0]), es[1..], ks);
    }
  }

  /** In every run from an empty store, a connected session has no pending deadline. */
  lemma ConnectedHasNoDeadline(es: seq<Event>, ls: Lives, id: Text)
    requires Reaches(map[], es, ls) && id in ls && ls[id].connected
    ensures ls[id].deadline == None
  {
    RunIsSane(map[], es, ls);
  }

  /** The events are all about other clients, or sweeps. */
  predicate Elsewhere(es: seq<Event>, id: Text)
  {
    forall i :: 0 <= i < |es| ==> es[i].Sweep? || es[i].id != id
  }

  /** Some sweep happens at or after the deadline. */
  predicate SweptAfter(es: seq<Event>, deadline: int)
  {
    exists i :: 0 <= i < |es| && es[i].Sweep? && es[i].now >= deadline
  }

  /** The reference: how long a session may wait after it is disconnected. */
  datatype Fate = Gone | Forever | Until(deadline: int)

  /** Section 3.1.2.11.2 of MQTT 5.0: the interval of CONNECT, unless DISCONNECT overrides it. */
  function FateOf(version: nat, clean: bool, connectSec: nat, disconnectSec: Option<nat>, now: int): Fate
  {
    var sec := if disconnectSec.Some? then disconnectSec.value else connectSec;
    if clean then Gone
    else if version != 5 then Forever
    else if sec == 0 then Gone
    else if sec == 0xFFFF_FFFF then Forever
    else Until(now + sec * 1_000_000_000)
  }

  predicate Survives(f: Fate, es: seq<Event>)
  {
    match f
    case Gone => false
    case Forever => true
    case Until(d) => !SweptAfter(es, d)
  }

  /** The store agrees with the reference on one client. */
  predicate Shows(ls: Lives, id: Text, f: Fate)
  {
    match f
    case Gone => id !in ls
    case Forever => id in ls && !ls[id].connected && ls[id].deadline == None
    case Until(d) => id in ls && !ls[id].connected && !ls[id].clean && ls[id].deadline == Some(d)
  }

  lemma SweptAfterNext(es: seq<Event>, d: int)
    requires es != []
    ensures SweptAfter(es, d) <==> (es[0].Sweep? && es[0].now >= d) || SweptAfter(es[1..], d)
  {
    assert forall i :: 0 <= i < |es| - 1 ==> es[1..][i] == es[i + 1];
    if SweptAfter(es, d) {
      var i :| 0 <= i < |es| && es[i].Sweep? && es[i].now >= d;
      assert i > 0 ==> es[1..][i - 1] == es[i];
    }
  }

  lemma ElsewhereNext(es: seq<Event>, id: Text)
    requires es != [] && Elsewhere(es, id)
    ensures Elsewhere(es[1..], id) && (es[0].Sweep? || es[0].id != id)
  {
    assert forall i :: 0 <= i < |es| - 1 ==> es[1..][i] == es[i + 1];
  }

  /** While a client is away its session is there exactly as long as its fate allows. */
  lemma {:induction false} AwayIsFate(ls: Lives, es: seq<Event>, ks: Lives, id: Text, f: Fate)
    requires Reaches(ls, es, ks) && Elsewhere(es, id) && Shows(ls, id, f)
    ensures id in ks <==> Survives(f, es)
    decreases |es|
  {
    if es != [] {
      var next := Step(ls, es[0]);
      ElsewhereNext(es, id);
      if f.Until? { SweptAfterNext(es, f.deadline); }
      if f.Until? && es[0].Sweep? && es[0].now >= f.deadline {
        AwayIsFate(next, es[1..], ks, id, Gone);
      } else {
        AwayIsFate(next, es[1..], ks, id, f);
      }
    }
  }

  /** While a client is connected, nothing others do touches its session. */
  lemma {:induction false} OnlineUndisturbed(ls: Lives, es: seq<Event>, ks: Lives, id: Text)
    requires Reaches(ls, es, ks) && Elsewhere(es, id) && id in ls && ls[id].connected
    ensures id in ks && ks[id] == ls[id]
    decreases |es|
  {
    if es != [] {
      ElsewhereNext(es, id);
      OnlineUndisturbed(Step(ls, es[0]), es[1..], ks, id);
    }
  }

  lemma DisconnectShowsFate(ls: Lives, id: Text, version: nat, clean: bool, sec: nat, x: Option<nat>, now: int)
    requires id in ls && ls[id] == Connected(map[], id, version, clean, sec)[id].(expirySec := ls[id].expirySec)
    requires version == V50 && !clean ==> ls[id].expirySec == sec
    requires x.Some? ==> version == V50
    ensures Shows(Disconnected(ls, id, x, now), id, FateOf(version, clean, sec, x, now))
  {
  }

  /** The life of a session after a CONNECT, whatever came before it. */
  lemma ConnectSetsLife(ls: Lives, id: Text, version: nat, clean: bool, sec: nat)
    requires AllSane(ls)
    ensures var l := Connected(ls, id, version, clean, sec)[id];
            && l == Connected(map[], id, version, clean, sec)[id].(expirySec := l.expirySec)
            && (version == V50 && !clean ==> l.expirySec == sec)
  {
  }

  /** Session expiry, for every run: a client connects, others do what they like, the client
      disconnects, others do what they like. Its session is then in the store exactly when the
      effective interval has not elapsed at any sweep since. */
  lemma ExpiryTheorem(before: seq<Event>, l0: Lives, id: Text, version: nat, clean: bool, sec: nat, during: seq<Event>, l1: Lives,
                      x: Option<nat>, now: int, after: seq<Event>, l2: Lives)
    requires Reaches(map[], before, l0) && Enabled(l0, Connect(id, version, clean, sec))
    requires Reaches(Step(l0, Connect(id, version, clean, sec)), during, l1) && Elsewhere(during, id)
    requires Enabled(l1, Disconnect(id, x, now))
    requires Reaches(Step(l1, Disconnect(id, x, now)), after, l2) && Elsewhere(after, id)
    ensures id in l2 <==> Survives(FateOf(version, clean, sec, x, now), after)
  {
    RunIsSane(map[], before, l0);
    ConnectSetsLife(l0, id, version, clean, sec);
    OnlineUndisturbed(Connected(l0, id, version, clean, sec), during, l1, id);
    DisconnectShowsFate(l1, id, version, clean, sec, x, now);
    AwayIsFate(Disconnected(l1, id, x, now), after, l2, id, FateOf(version, clean, sec, x, now));
  }
}
