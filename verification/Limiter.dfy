/** The token bucket rate limiter, over exact reals and a clock passed in by the caller. */
module Limiter {
  import opened Bytes

  datatype Bucket = Bucket(tokens: real, last: real)

  datatype Config = Config(rate: real, burst: real)

  type Buckets = map<Text, Bucket>

  function Find(bs: Buckets, id: Text): Option<Bucket>
  {
    if id in bs then Some(bs[id]) else None
  }

  function AtMost(x: real, cap: real): real
  {
    if x > cap then cap else x
  }

  /** The tokens that flow in over a time `d`. */
  function Flow(rate: real, d: real): real
  {
    d * rate
  }

  /** The tokens a client has at `now`; a client not seen before has a full bucket. */
  function Tokens(c: Config, b: Option<Bucket>, now: real): real
  {
    if b.None? then c.burst else AtMost(b.value.tokens + Flow(c.rate, now - b.value.last), c.burst)
  }

  predicate Allows(c: Config, b: Option<Bucket>, now: real)
  {
    Tokens(c, b, now) >= 1.0
  }

  function Asked(c: Config, b: Option<Bucket>, now: real): Bucket
  {
    Bucket(Tokens(c, b, now) - (if Allows(c, b, now) then 1.0 else 0.0), now)
  }

  predicate IsStale(b: Bucket, now: real, maxAge: real)
  {
    b.last < now - maxAge
  }

  function Cleaned(bs: Buckets, now: real, maxAge: real): Buckets
  {
    map id | id in bs && !IsStale(bs[id], now, maxAge) :: bs[id]
  }

  class RateLimiter {
    const config: Config
    var buckets: Buckets

    constructor (rate: real, burst: real)
      ensures config == Config(rate, burst) && buckets == map[]
    {
      config, buckets := Config(rate, burst), map[];
    }

    method Allow(id: Text, now: real) returns (ok: bool)
      modifies this
      ensures ok == Allows(config, Find(old(buckets), id), now)
      ensures buckets == old(buckets)[id := Asked(config, Find(old(buckets), id), now)]
    {
      if id !in buckets {
        buckets := buckets[id := Bucket(config.burst, now)];
      }
      var b := buckets[id];
      var elapsed := now - b.last;
      var tokens := b.tokens + Flow(config.rate, elapsed);
      if tokens > config.burst { tokens := config.burst; }
      if tokens < 1.0 {
        buckets := buckets[id := Bucket(tokens, now)];
        return false;
      }
      buckets := buckets[id := Bucket(tokens - 1.0, now)];
      ok := true;
    }

    method Cleanup(now: real, maxAge: real)
      modifies this
      ensures buckets == Cleaned(old(buckets), now, maxAge)
      ensures forall id :: id in buckets <==> id in old(buckets) && now - old(buckets)[id].last <= maxAge
    {
      var cutoff := now - maxAge;
      ghost var was := buckets;
      var ids := buckets.Keys;
      while ids != {}
        invariant ids <= buckets.Keys <= was.Keys
        invariant forall id :: id in buckets ==> buckets[id] == was[id]
        invariant forall id :: id in was && id !in ids ==> (id in buckets <==> !IsStale(was[id], now, maxAge))
        decreases |ids|
      {
        var id :| id in ids;
        ids := ids - {id};
        if buckets[id].last < cutoff { buckets := buckets - {id}; }
      }
    }
  }

  // ----- traces ---------------------------------------------------------------------------

  datatype Event = Ask(id: Text, now: real) | Clean(now: real, maxAge: real)

  function Step(c: Config, bs: Buckets, e: Event): Buckets
  {
    match e
    case Ask(id, now) => bs[id := Asked(c, Find(bs, id), now)]
    case Clean(now, maxAge) => Cleaned(bs, now, maxAge)
  }

  /** The decisions one client gets in a trace of requests by everyone and clean-ups. */
  function Decisions(c: Config, bs: Buckets, es: seq<Event>, id: Text): seq<bool>
    decreases |es|
  {
    if es == [] then []
    else
      (if es[0].Ask? && es[0].id == id then [Allows(c, Find(bs, id), es[0].now)] else [])
      + Decisions(c, Step(c, bs, es[0]), es[1..], id)
  }

  /** The times of one client's requests. */
  function Times(es: seq<Event>, id: Text): seq<real>
    decreases |es|
  {
    if es == [] then []
    else (if es[0].Ask? && es[0].id == id then [es[0].now] else []) + Times(es[1..], id)
  }

  /** The reference: a limiter for this client alone that is never cleaned up. */
  function Alone(c: Config, b: Option<Bucket>, ts: seq<real>): seq<bool>
    decreases |ts|
  {
    if ts == [] then [] else [Allows(c, b, ts[0])] + Alone(c, Some(Asked(c, b, ts[0])), ts[1..])
  }

  predicate Fair(c: Config)
  {
    c.rate >= 0.0 && c.burst >= 0.0
  }

  /** The clock does not run backwards. */
  predicate Clocked(from: real, es: seq<Event>)
    decreases |es|
  {
    es == [] || (from <= es[0].now && Clocked(es[0].now, es[1..]))
  }

  /** Every clean-up keeps a bucket at least as long as it takes to refill. */
  predicate Patient(c: Config, es: seq<Event>)
  {
    forall e :: e in es && e.Clean? ==> Flow(c.rate, e.maxAge) >= c.burst
  }

  predicate Sound(c: Config, b: Option<Bucket>, now: real)
  {
    b.Some? ==> 0.0 <= b.value.tokens <= c.burst && b.value.last <= now
  }

  /** The real bucket and the reference bucket are the same, or the real one was cleaned away
      and the reference one is full again. */
  predicate Alike(c: Config, a: Option<Bucket>, b: Option<Bucket>, now: real)
  {
    Sound(c, b, now) && (a == b || (a.None? && b.Some? && b.value.tokens + Flow(c.rate, now - b.value.last) >= c.burst))
  }

  lemma Grows(rate: real, d: real, e: real)
    requires rate >= 0.0 && d <= e
    ensures Flow(rate, d) <= Flow(rate, e)
  {
    assert (e - d) * rate >= 0.0;
  }

  lemma NonNegative(rate: real, d: real)
    requires rate >= 0.0 && d >= 0.0
    ensures Flow(rate, d) >= 0.0
  {
  }

  lemma FlowSplit(rate: real, d: real, e: real)
    ensures Flow(rate, d + e) == Flow(rate, d) + Flow(rate, e)
  {
  }

  lemma AlikeLater(c: Config, a: Option<Bucket>, b: Option<Bucket>, now: real, later: real)
    requires Fair(c) && Alike(c, a, b, now) && now <= later
    ensures Alike(c, a, b, later)
  {
    if b.Some? { Grows(c.rate, now - b.value.last, later - b.value.last); }
  }

  /** A request is answered alike and leaves the two buckets the same. */
  lemma AlikeAsked(c: Config, a: Option<Bucket>, b: Option<Bucket>, now: real)
    requires Fair(c) && Alike(c, a, b, now)
    ensures Allows(c, a, now) == Allows(c, b, now) && Asked(c, a, now) == Asked(c, b, now)
    ensures Sound(c, Some(Asked(c, b, now)), now)
  {
    if b.Some? { NonNegative(c.rate, now - b.value.last); }
  }

  /** A clean-up removes a bucket only once it is full again. */
  lemma AlikeCleaned(c: Config, bs: Buckets, b: Option<Bucket>, id: Text, now: real, maxAge: real)
    requires Fair(c) && Alike(c, Find(bs, id), b, now) && Flow(c.rate, maxAge) >= c.burst
    ensures Alike(c, Find(Cleaned(bs, now, maxAge), id), b, now)
  {
    if id in bs && IsStale(bs[id], now, maxAge) {
      Grows(c.rate, maxAge, now - bs[id].last);
    }
  }

  /** Decisions do not depend on other clients, nor on patient clean-ups: they are those of the
      client's own bucket. */
  lemma {:induction false} DecisionsAreOwn(c: Config, bs: Buckets, b: Option<Bucket>, es: seq<Event>, id: Text, from: real)
    requires Fair(c) && Clocked(from, es) && Patient(c, es) && Alike(c, Find(bs, id), b, from)
    ensures Decisions(c, bs, es, id) == Alone(c, b, Times(es, id))
    decreases |es|
  {
    if es != [] {
      var e := es[0];
      AlikeLater(c, Find(bs, id), b, from, e.now);
      if e.Clean? {
        AlikeCleaned(c, bs, b, id, e.now, e.maxAge);
        PatientNext(c, es);
        DecisionsAreOwn(c, Step(c, bs, e), b, es[1..], id, e.now);
        assert Times(es, id) == Times(es[1..], id);
      } else if e.id == id {
        AlikeAsked(c, Find(bs, id), b, e.now);
        PatientNext(c, es);
        DecisionsAreOwn(c, Step(c, bs, e), Some(Asked(c, b, e.now)), es[1..], id, e.now);
        assert Times(es, id)[1..] == Times(es[1..], id);
      } else {
        PatientNext(c, es);
        DecisionsAreOwn(c, Step(c, bs, e), b, es[1..], id, e.now);
        assert Times(es, id) == Times(es[1..], id);
      }
    }
  }

  lemma PatientNext(c: Config, es: seq<Event>)
    requires es != [] && Patient(c, es)
    ensures Patient(c, es[1..])
  {
    assert es == [es[0]] + es[1..];
  }

  // ----- the bound --------------------------------------------------------------------------

  function Count(ds: seq<bool>): nat
  {
    if ds == [] then 0 else (if ds[0] then 1 else 0) + Count(ds[1..])
  }

  predicate Ascending(from: real, ts: seq<real>, to: real)
    decreases |ts|
  {
    if ts == [] then from <= to else from <= ts[0] && Ascending(ts[0], ts[1..], to)
  }

  /** What is allowed is paid for by the tokens at the start and those that flow in. */
  lemma {:induction false} Paid(c: Config, b: Option<Bucket>, ts: seq<real>, from: real, to: real)
    requires Fair(c) && Sound(c, b, from) && Ascending(from, ts, to)
    ensures Count(Alone(c, b, ts)) as real <= Tokens(c, b, from) + Flow(c.rate, to - from)
    decreases |ts|
  {
    if ts == [] {
      if b.Some? { NonNegative(c.rate, from - b.value.last); }
      NonNegative(c.rate, to - from);
    } else {
      var t := ts[0];
      var next := Some(Asked(c, b, t));
      TokensGrow(c, b, from, t);
      AlikeAsked(c, b, b, t);
      Paid(c, next, ts[1..], t, to);
      assert Alone(c, b, ts)[1..] == Alone(c, next, ts[1..]);
      assert Flow(c.rate, t - t) == 0.0;
      FlowSplit(c.rate, to - t, t - from);
      assert (to - t) + (t - from) == to - from;
    }
  }

  lemma TokensGrow(c: Config, b: Option<Bucket>, from: real, t: real)
    requires Fair(c) && Sound(c, b, from) && from <= t
    ensures Tokens(c, b, t) <= Tokens(c, b, from) + Flow(c.rate, t - from)
    ensures Sound(c, b, t)
  {
    NonNegative(c.rate, t - from);
    if b.Some? {
      FlowSplit(c.rate, from - b.value.last, t - from);
      assert (from - b.value.last) + (t - from) == t - b.value.last;
    }
  }

  lemma {:induction false} TimesAscend(es: seq<Event>, id: Text, from: real, to: real)
    requires Clocked(from, es) && from <= to && forall e :: e in es ==> e.now <= to
    ensures Ascending(from, Times(es, id), to)
    decreases |es|
  {
    if es != [] {
      assert es == [es[0]] + es[1..];
      var rest := Times(es[1..], id);
      TimesAscend(es[1..], id, es[0].now, to);
      AscendingFromEarlier(from, es[0].now, rest, to);
      assert ([es[0].now] + rest)[1..] == rest && [] + rest == rest;
    }
  }

  lemma AscendingFromEarlier(from: real, t: real, ts: seq<real>, to: real)
    requires from <= t && Ascending(t, ts, to)
    ensures Ascending(from, ts, to)
  {
  }

  /** In any window of length `d`, whatever others do and whatever came before, a client is
      allowed at most burst + rate * d requests. */
  lemma WindowBound(c: Config, bs: Buckets, es: seq<Event>, id: Text, from: real, d: real)
    requires Fair(c) && Clocked(from, es) && Patient(c, es) && d >= 0.0 && Sound(c, Find(bs, id), from)
    requires forall e :: e in es ==> e.now <= from + d
    ensures Count(Decisions(c, bs, es, id)) as real <= c.burst + Flow(c.rate, d)
  {
    var b := Find(bs, id);
    DecisionsAreOwn(c, bs, b, es, id, from);
    TimesAscend(es, id, from, from + d);
    Paid(c, b, Times(es, id), from, from + d);
    assert from + d - from == d;
  }

  function After(c: Config, bs: Buckets, es: seq<Event>): Buckets
    decreases |es|
  {
    if es == [] then bs else After(c, Step(c, bs, es[0]), es[1..])
  }

  lemma {:induction false} StaysSound(c: Config, bs: Buckets, es: seq<Event>, id: Text, from: real, to: real)
    requires Fair(c) && Clocked(from, es) && from <= to && Sound(c, Find(bs, id), from)
    requires forall e :: e in es ==> e.now <= to
    ensures Sound(c, Find(After(c, bs, es), id), to)
    decreases |es|
  {
    if es != [] {
      var e, b := es[0], Find(bs, id);
      AlikeLater(c, b, b, from, e.now);
      AlikeAsked(c, b, b, e.now);
      assert es == [es[0]] + es[1..];
      StaysSound(c, Step(c, bs, e), es[1..], id, e.now, to);
    }
  }

  /** The bound for every run from an empty limiter: after any `before`, in any window of length
      `d`, a client is allowed at most burst + rate * d requests. */
  lemma RateBound(c: Config, before: seq<Event>, es: seq<Event>, id: Text, start: real, from: real, d: real)
    requires Fair(c) && Clocked(start, before) && start <= from && forall e :: e in before ==> e.now <= from
    requires Clocked(from, es) && Patient(c, es) && d >= 0.0 && forall e :: e in es ==> e.now <= from + d
    ensures Count(Decisions(c, After(c, map[], before), es, id)) as real <= c.burst + Flow(c.rate, d)
  {
    StaysSound(c, map[], before, id, start, from);
    WindowBound(c, After(c, map[], before), es, id, from, d);
  }

  /** Patient clean-ups change no decision: with and without them, every client is answered the
      same in every run. */
  lemma CleanupInvisible(c: Config, es: seq<Event>, bare: seq<Event>, id: Text, start: real)
    requires Fair(c) && Clocked(start, es) && Patient(c, es)
    requires Clocked(start, bare) && Patient(c, bare) && Times(bare, id) == Times(es, id)
    ensures Decisions(c, map[], es, id) == Decisions(c, map[], bare, id)
  {
    DecisionsAreOwn(c, map[], None, es, id, start);
    DecisionsAreOwn(c, map[], None, bare, id, start);
  }

  // ----- impatient clean-ups are visible ------------------------------------------------------

  function Asks(id: Text, now: real, n: nat): seq<Event>
  {
    if n == 0 then [] else [Ask(id, now)] + Asks(id, now, n - 1)
  }

  lemma {:induction false} AskMany(c: Config, bs: Buckets, id: Text, now: real, n: nat)
    requires n > 0 && Tokens(c, Find(bs, id), now) >= n as real
    ensures Find(After(c, bs, Asks(id, now, n)), id) == Some(Bucket(Tokens(c, Find(bs, id), now) - n as real, now))
    ensures Count(Decisions(c, bs, Asks(id, now, n), id)) == n
    decreases n
  {
    var es, next := Asks(id, now, n), Step(c, bs, Ask(id, now));
    assert es[1..] == Asks(id, now, n - 1);
    assert Flow(c.rate, now - now) == 0.0;
    assert Decisions(c, bs, es, id)[1..] == Decisions(c, next, es[1..], id);
    if n > 1 { AskMany(c, next, id, now, n - 1); }
  }

  lemma {:induction false} AfterSplit(c: Config, bs: Buckets, es: seq<Event>, fs: seq<Event>)
    ensures After(c, bs, es + fs) == After(c, After(c, bs, es), fs)
    decreases |es|
  {
    if es == [] {
      assert es + fs == fs;
    } else {
      assert (es + fs)[1..] == es[1..] + fs;
      AfterSplit(c, Step(c, bs, es[0]), es[1..], fs);
    }
  }

  lemma {:induction false} DecisionsSplit(c: Config, bs: Buckets, es: seq<Event>, fs: seq<Event>, id: Text)
    ensures Decisions(c, bs, es + fs, id) == Decisions(c, bs, es, id) + Decisions(c, After(c, bs, es), fs, id)
    decreases |es|
  {
    if es == [] {
      assert es + fs == fs;
    } else {
      assert (es + fs)[1..] == es[1..] + fs;
      DecisionsSplit(c, Step(c, bs, es[0]), es[1..], fs, id);
    }
  }

  lemma RunSplit(c: Config, bs: Buckets, es: seq<Event>, fs: seq<Event>, id: Text)
    ensures After(c, bs, es + fs) == After(c, After(c, bs, es), fs)
    ensures Decisions(c, bs, es + fs, id) == Decisions(c, bs, es, id) + Decisions(c, After(c, bs, es), fs, id)
  {
    AfterSplit(c, bs, es, fs);
    DecisionsSplit(c, bs, es, fs, id);
  }

  lemma FlowDiv(rate: real, x: real)
    requires rate > 0.0
    ensures Flow(rate, x / rate) == x
  {
  }

  lemma {:induction false} CountConcat(a: seq<bool>, b: seq<bool>)
    ensures Count(a + b) == Count(a) + Count(b)
  {
    if a == [] {
      assert a + b == b;
    } else {
      assert (a + b)[1..] == a[1..] + b;
      CountConcat(a[1..], b);
    }
  }

  /** The requests after the clean-up: as many as a full bucket pays for at once, and one more
      when the next token is due. */
  function Burst(c: Config, id: Text, now: real, k: nat, wait: real): seq<Event>
  {
    Asks(id, now, k) + [Ask(id, now + wait)]
  }

  /** A fresh bucket pays for all of them. */
  lemma FreshPays(c: Config, bs: Buckets, id: Text, now: real, k: nat, wait: real)
    requires c.burst >= 1.0 && k > 0 && k as real <= c.burst && Flow(c.rate, wait) == 1.0 - (c.burst - k as real)
    requires id !in bs
    ensures Count(Decisions(c, bs, Burst(c, id, now, k, wait), id)) == k + 1
  {
    var asks, last := Asks(id, now, k), [Ask(id, now + wait)];
    AskMany(c, bs, id, now, k);
    RunSplit(c, bs, asks, last, id);
    var mid := After(c, bs, asks);
    assert now + wait - now == wait;
    assert Allows(c, Find(mid, id), now + wait);
    assert last[1..] == [];
    assert Decisions(c, mid, last, id) == [true];
    CountConcat(Decisions(c, bs, asks, id), [true]);
  }

  lemma {:induction false} TimesOfAsks(id: Text, now: real, n: nat, to: real)
    requires now <= to
    ensures Ascending(now, Times(Asks(id, now, n) + [Ask(id, to)], id), to)
    ensures Clocked(now, Asks(id, now, n) + [Ask(id, to)])
    ensures forall e :: e in Asks(id, now, n) + [Ask(id, to)] ==> e.Ask? && e.now <= to
  {
    var es := Asks(id, now, n) + [Ask(id, to)];
    if n == 0 {
      assert es == [Ask(id, to)] && es[1..] == [];
    } else {
      assert es[1..] == Asks(id, now, n - 1) + [Ask(id, to)];
      TimesOfAsks(id, now, n - 1, to);
      assert Times(es, id) == [now] + Times(es[1..], id);
      assert Times(es, id)[1..] == Times(es[1..], id);
    }
  }

  /** A bucket that was empty a time `e` ago, too short to refill, does not. */
  lemma UsedDoesNotPay(c: Config, bs: Buckets, id: Text, emptied: real, e: real, k: nat, wait: real)
    requires Fair(c) && e >= 0.0 && wait >= 0.0 && Find(bs, id) == Some(Bucket(0.0, emptied))
    requires Flow(c.rate, e) < c.burst && Flow(c.rate, wait) == 1.0 - (c.burst - k as real)
    ensures Count(Decisions(c, bs, Burst(c, id, emptied + e, k, wait), id)) < k + 1
  {
    var now := emptied + e;
    var es, b := Burst(c, id, now, k, wait), Find(bs, id);
    TimesOfAsks(id, now, k, now + wait);
    assert Sound(c, b, now) && Patient(c, es);
    DecisionsAreOwn(c, bs, b, es, id, now);
    Paid(c, b, Times(es, id), now, now + wait);
    assert now - emptied == e && now + wait - now == wait;
  }

  /** The same requests empty a fresh bucket exactly. */
  lemma BurstEmpties(c: Config, id: Text, k: nat, wait: real)
    requires c.burst >= 1.0 && k > 0 && k as real <= c.burst && Flow(c.rate, wait) == 1.0 - (c.burst - k as real)
    ensures Find(After(c, map[], Burst(c, id, 0.0, k, wait)), id) == Some(Bucket(0.0, wait))
  {
    var asks, last := Asks(id, 0.0, k), [Ask(id, 0.0 + wait)];
    AskMany(c, map[], id, 0.0, k);
    RunSplit(c, map[], asks, last, id);
    assert last[1..] == [] && 0.0 + wait - 0.0 == wait;
  }

  lemma {:induction false} ClockedJoin(from: real, es: seq<Event>, to: real, fs: seq<Event>)
    requires Clocked(from, es) && from <= to && (forall e :: e in es ==> e.now <= to) && Clocked(to, fs)
    ensures Clocked(from, es + fs)
    decreases |es|
  {
    if es == [] {
      assert es + fs == fs;
    } else {
      assert es == [es[0]] + es[1..] && (es + fs)[1..] == es[1..] + fs;
      ClockedJoin(es[0].now, es[1..], to, fs);
    }
  }

  /** A time longer than `maxAge` and too short to refill the bucket. */
  lemma BetweenTimes(c: Config, maxAge: real) returns (e: real)
    requires c.rate > 0.0 && Flow(c.rate, maxAge) < c.burst
    ensures e > maxAge && Flow(c.rate, e) < c.burst
  {
    var full := c.burst / c.rate;
    FlowDiv(c.rate, c.burst);
    if full <= maxAge { Grows(c.rate, full, maxAge); }
    var gap := (full - maxAge) / 2.0;
    e := maxAge + gap;
    FlowSplit(c.rate, maxAge, gap);
    FlowSplit(c.rate, gap, gap);
    FlowSplit(c.rate, maxAge, gap + gap);
    assert maxAge + (gap + gap) == full;
  }

  /** The clean-up between two parts of a run changes the count of allowed requests in the second. */
  lemma CleanedApart(c: Config, before: seq<Event>, now: real, maxAge: real, after: seq<Event>, id: Text)
    requires var bs := After(c, map[], before);
             Count(Decisions(c, Cleaned(bs, now, maxAge), after, id)) != Count(Decisions(c, bs, after, id))
    ensures Decisions(c, map[], before + [Clean(now, maxAge)] + after, id) != Decisions(c, map[], before + after, id)
  {
    CountAround(c, before, now, maxAge, after, id);
    RunSplit(c, map[], before, after, id);
    CountConcat(Decisions(c, map[], before, id), Decisions(c, After(c, map[], before), after, id));
  }

  /** The run that tells the two apart: empty the bucket exactly, wait longer than `maxAge` but
      too short to refill, clean up or not, then ask for a full bucket and one token more. */
  lemma VisibleAtRate(c: Config, maxAge: real, id: Text) returns (before: seq<Event>, now: real, after: seq<Event>)
    requires c.rate > 0.0 && c.burst >= 1.0 && maxAge >= 0.0 && Flow(c.rate, maxAge) < c.burst
    ensures Clocked(0.0, before + [Clean(now, maxAge)] + after) && forall e :: e in before + after ==> e.Ask?
    ensures Decisions(c, map[], before + [Clean(now, maxAge)] + after, id) != Decisions(c, map[], before + after, id)
  {
    hide Decisions, After, Asks, Times, Clocked, Ascending;
    var k: nat := c.burst.Floor;
    var rest := 1.0 - (c.burst - k as real);
    var wait := rest / c.rate;
    FlowDiv(c.rate, rest);
    if wait < 0.0 { Grows(c.rate, wait, 0.0); }
    var e := BetweenTimes(c, maxAge);
    now := wait + e;
    before, after := Burst(c, id, 0.0, k, wait), Burst(c, id, now, k, wait);
    BurstEmpties(c, id, k, wait);
    var bs := After(c, map[], before);
    FreshPays(c, Cleaned(bs, now, maxAge), id, now, k, wait);
    UsedDoesNotPay(c, bs, id, wait, e, k, wait);
    CleanedApart(c, before, now, maxAge, after, id);
    TimesOfAsks(id, 0.0, k, 0.0 + wait);
    TimesOfAsks(id, now, k, now + wait);
    JoinedClock(before, now, maxAge, after);
  }

  lemma JoinedClock(before: seq<Event>, now: real, maxAge: real, after: seq<Event>)
    requires Clocked(0.0, before) && 0.0 <= now && (forall e :: e in before ==> e.now <= now) && Clocked(now, after)
    ensures Clocked(0.0, before + [Clean(now, maxAge)] + after)
  {
    var rest := [Clean(now, maxAge)] + after;
    assert rest[1..] == after;
    ClockedJoin(0.0, before, now, rest);
    assert before + rest == before + [Clean(now, maxAge)] + after;
  }

  /** Without any flow a used bucket never refills. */
  lemma VisibleWithoutRate(c: Config, maxAge: real, id: Text) returns (before: seq<Event>, now: real, after: seq<Event>)
    requires c.rate == 0.0 && c.burst >= 1.0 && maxAge >= 0.0
    ensures Clocked(0.0, before + [Clean(now, maxAge)] + after) && forall e :: e in before + after ==> e.Ask?
    ensures Decisions(c, map[], before + [Clean(now, maxAge)] + after, id) != Decisions(c, map[], before + after, id)
  {
    var k: nat := c.burst.Floor;
    now := maxAge + 1.0;
    before, after := Asks(id, 0.0, k), [Ask(id, now)];
    AskMany(c, map[], id, 0.0, k);
    var bs := After(c, map[], before);
    assert after[1..] == [] && !Allows(c, Find(bs, id), now) && Allows(c, None, now);
    assert Find(Cleaned(bs, now, maxAge), id) == None;
    assert Decisions(c, bs, after, id) == [false];
    assert Decisions(c, Cleaned(bs, now, maxAge), after, id) == [true];
    CleanedApart(c, before, now, maxAge, after, id);
    ClockedAsks(id, 0.0, k);
    JoinedClock(before, now, maxAge, after);
  }

  lemma {:induction false} ClockedAsks(id: Text, now: real, n: nat)
    ensures Clocked(now, Asks(id, now, n)) && forall e :: e in Asks(id, now, n) ==> e.Ask? && e.now == now
  {
    if n > 0 {
      ClockedAsks(id, now, n - 1);
      assert Asks(id, now, n)[1..] == Asks(id, now, n - 1);
    }
  }

  /** No run tells the clean-up of age `maxAge` apart. */
  ghost predicate Invisible(c: Config, maxAge: real, id: Text)
  {
    forall before: seq<Event>, now: real, after: seq<Event> ::
      Clocked(0.0, before + [Clean(now, maxAge)] + after) && (forall e :: e in before + after ==> e.Ask?)
      ==> Decisions(c, map[], before + [Clean(now, maxAge)] + after, id) == Decisions(c, map[], before + after, id)
  }

  lemma {:induction false} TimesConcat(es: seq<Event>, fs: seq<Event>, id: Text)
    ensures Times(es + fs, id) == Times(es, id) + Times(fs, id)
    decreases |es|
  {
    if es == [] {
      assert es + fs == fs;
    } else {
      assert (es + fs)[1..] == es[1..] + fs;
      TimesConcat(es[1..], fs, id);
    }
  }

  lemma {:induction false} ClockedWithout(from: real, before: seq<Event>, e: Event, after: seq<Event>)
    requires Clocked(from, before + ([e] + after))
    ensures Clocked(from, before + after)
    decreases |before|
  {
    if before == [] {
      assert before + ([e] + after) == [e] + after && ([e] + after)[1..] == after && before + after == after;
    } else {
      var b := before[0];
      assert (before + ([e] + after))[1..] == before[1..] + ([e] + after) && (before + after)[1..] == before[1..] + after;
      ClockedWithout(b.now, before[1..], e, after);
    }
  }

  function Denials(n: nat): seq<bool>
  {
    if n == 0 then [] else [false] + Denials(n - 1)
  }

  /** A bucket smaller than one token allows nothing. */
  lemma {:induction false} SmallBurstDenies(c: Config, bs: Buckets, es: seq<Event>, id: Text)
    requires c.burst < 1.0
    ensures Decisions(c, bs, es, id) == Denials(|Times(es, id)|)
    decreases |es|
  {
    if es != [] { SmallBurstDenies(c, Step(c, bs, es[0]), es[1..], id); }
  }

  lemma PatientIsInvisible(c: Config, before: seq<Event>, now: real, maxAge: real, after: seq<Event>, id: Text)
    requires Fair(c) && (c.burst < 1.0 || Flow(c.rate, maxAge) >= c.burst)
    requires Clocked(0.0, before + [Clean(now, maxAge)] + after) && forall e :: e in before + after ==> e.Ask?
    ensures Decisions(c, map[], before + [Clean(now, maxAge)] + after, id) == Decisions(c, map[], before + after, id)
  {
    var e := Clean(now, maxAge);
    var es, bare := before + [e] + after, before + after;
    assert es == before + ([e] + after) && [e][1..] == [];
    TimesConcat(before + [e], after, id);
    TimesConcat(before, [e], id);
    TimesConcat(before, after, id);
    assert Times(es, id) == Times(bare, id);
    if c.burst < 1.0 {
      SmallBurstDenies(c, map[], es, id);
      SmallBurstDenies(c, map[], bare, id);
    } else {
      ClockedWithout(0.0, before, e, after);
      assert forall x :: x in es ==> x == e || x in bare;
      CleanupInvisible(c, es, bare, id, 0.0);
    }
  }

  /** Exactly when a clean-up can never be noticed: the bucket refills within `maxAge`, or holds
      less than one token. */
  lemma CleanupInvisibleIff(c: Config, maxAge: real, id: Text)
    requires Fair(c) && maxAge >= 0.0
    ensures Invisible(c, maxAge, id) <==> c.burst < 1.0 || Flow(c.rate, maxAge) >= c.burst
  {
    if c.burst < 1.0 || Flow(c.rate, maxAge) >= c.burst {
      forall before: seq<Event>, now: real, after: seq<Event>
        | Clocked(0.0, before + [Clean(now, maxAge)] + after) && (forall e :: e in before + after ==> e.Ask?)
        ensures Decisions(c, map[], before + [Clean(now, maxAge)] + after, id) == Decisions(c, map[], before + after, id)
      {
        PatientIsInvisible(c, before, now, maxAge, after, id);
      }
    } else if c.rate > 0.0 {
      var before, now, after := VisibleAtRate(c, maxAge, id);
    } else {
      var before, now, after := VisibleWithoutRate(c, maxAge, id);
    }
  }

  // ----- when the bound holds ---------------------------------------------------------------

  /** After any `before`, events in a window of length `d` whose clean-ups have age `maxAge`. */
  ghost predicate Window(before: seq<Event>, es: seq<Event>, from: real, d: real, maxAge: real)
  {
    && Clocked(0.0, before) && 0.0 <= from && (forall e :: e in before ==> e.now <= from)
    && Clocked(from, es) && d >= 0.0 && (forall e :: e in es ==> e.now <= from + d && (e.Clean? ==> e.maxAge == maxAge))
  }

  /** No run allows more than burst + rate * d requests in a window of length `d`. */
  ghost predicate AlwaysBounded(c: Config, maxAge: real, id: Text)
  {
    forall before, es, from, d :: Window(before, es, from, d, maxAge) ==>
      Count(Decisions(c, After(c, map[], before), es, id)) as real <= c.burst + Flow(c.rate, d)
  }

  lemma {:induction false} DenialsCountNothing(n: nat)
    ensures Count(Denials(n)) == 0
  {
    if n > 0 {
      assert Denials(n)[1..] == Denials(n - 1);
      DenialsCountNothing(n - 1);
    }
  }

  /** What is allowed before and after a clean-up. */
  lemma CountAround(c: Config, before: seq<Event>, now: real, maxAge: real, after: seq<Event>, id: Text)
    ensures Count(Decisions(c, map[], before + [Clean(now, maxAge)] + after, id))
            == Count(Decisions(c, map[], before, id)) + Count(Decisions(c, Cleaned(After(c, map[], before), now, maxAge), after, id))
  {
    var bs, clean := After(c, map[], before), [Clean(now, maxAge)];
    RunSplit(c, map[], before, clean, id);
    RunSplit(c, map[], before + clean, after, id);
    assert clean[1..] == [];
    assert Decisions(c, bs, clean, id) == [] && After(c, bs, clean) == Cleaned(bs, now, maxAge);
    var d := Decisions(c, map[], before, id);
    assert d + [] == d;
    CountConcat(d, Decisions(c, Cleaned(bs, now, maxAge), after, id));
  }

  /** Two full bursts around one clean-up exceed the bound. */
  lemma ExceededAtRate(c: Config, maxAge: real, id: Text) returns (es: seq<Event>, d: real)
    requires c.rate > 0.0 && c.burst >= 1.0 && maxAge >= 0.0 && Flow(c.rate, maxAge) < c.burst
    ensures Window([], es, 0.0, d, maxAge) && Count(Decisions(c, map[], es, id)) as real > c.burst + Flow(c.rate, d)
  {
    hide Decisions, After, Asks, Times, Clocked, Ascending;
    var k: nat := c.burst.Floor;
    var rest := 1.0 - (c.burst - k as real);
    var wait := rest / c.rate;
    FlowDiv(c.rate, rest);
    if wait < 0.0 { Grows(c.rate, wait, 0.0); }
    var e := BetweenTimes(c, maxAge);
    var now := wait + e;
    var before, after := Burst(c, id, 0.0, k, wait), Burst(c, id, now, k, wait);
    BurstEmpties(c, id, k, wait);
    FreshPays(c, map[], id, 0.0, k, wait);
    FreshPays(c, Cleaned(After(c, map[], before), now, maxAge), id, now, k, wait);
    CountAround(c, before, now, maxAge, after, id);
    es, d := before + [Clean(now, maxAge)] + after, now + wait;
    FlowSplit(c.rate, wait, e);
    FlowSplit(c.rate, now, wait);
    TimesOfAsks(id, 0.0, k, 0.0 + wait);
    TimesOfAsks(id, now, k, now + wait);
    JoinedClock(before, now, maxAge, after);
    WindowFromStart(before, now, maxAge, after, d);
  }

  lemma WindowFromStart(before: seq<Event>, now: real, maxAge: real, after: seq<Event>, d: real)
    requires Clocked(0.0, before + [Clean(now, maxAge)] + after) && 0.0 <= now <= d
    requires forall e :: e in before + after ==> e.Ask? && e.now <= d
    ensures Window([], before + [Clean(now, maxAge)] + after, 0.0, d, maxAge)
  {
    assert forall e :: e in before + [Clean(now, maxAge)] + after ==> e == Clean(now, maxAge) || e in before + after;
  }

  lemma ExceededWithoutRate(c: Config, maxAge: real, id: Text) returns (es: seq<Event>, d: real)
    requires c.rate == 0.0 && c.burst >= 1.0 && maxAge >= 0.0
    ensures Window([], es, 0.0, d, maxAge) && Count(Decisions(c, map[], es, id)) as real > c.burst + Flow(c.rate, d)
  {
    var k: nat := c.burst.Floor;
    var now := maxAge + 1.0;
    var before, after := Asks(id, 0.0, k), Asks(id, now, k);
    AskMany(c, map[], id, 0.0, k);
    AskMany(c, Cleaned(After(c, map[], before), now, maxAge), id, now, k);
    CountAround(c, before, now, maxAge, after, id);
    es, d := before + [Clean(now, maxAge)] + after, now;
    ClockedAsks(id, 0.0, k);
    ClockedAsks(id, now, k);
    JoinedClock(before, now, maxAge, after);
    WindowFromStart(before, now, maxAge, after, d);
  }

  /** The exact condition for the rate bound in the presence of clean-ups. */
  lemma RateBoundIff(c: Config, maxAge: real, id: Text)
    requires Fair(c) && maxAge >= 0.0
    ensures AlwaysBounded(c, maxAge, id) <==> c.burst < 1.0 || Flow(c.rate, maxAge) >= c.burst
  {
    if c.burst < 1.0 || Flow(c.rate, maxAge) >= c.burst {
      forall before, es, from, d | Window(before, es, from, d, maxAge)
        ensures Count(Decisions(c, After(c, map[], before), es, id)) as real <= c.burst + Flow(c.rate, d)
      {
        if c.burst < 1.0 {
          SmallBurstDenies(c, After(c, map[], before), es, id);
          DenialsCountNothing(|Times(es, id)|);
          NonNegative(c.rate, d);
        } else {
          RateBound(c, before, es, id, 0.0, from, d);
        }
      }
    } else if c.rate > 0.0 {
      var es, d := ExceededAtRate(c, maxAge, id);
      assert After(c, map[], []) == map[];
    } else {
      var es, d := ExceededWithoutRate(c, maxAge, id);
      assert After(c, map[], []) == map[];
    }
  }

  // ----- the decision, by history -------------------------------------------------------------

  /** The bucket after a series of requests. */
  function BucketAfter(c: Config, b: Option<Bucket>, ts: seq<real>): Option<Bucket>
    decreases |ts|
  {
    if ts == [] then b else BucketAfter(c, Some(Asked(c, b, ts[0])), ts[1..])
  }

  lemma {:induction false} BucketNext(c: Config, b: Option<Bucket>, ts: seq<real>, i: nat)
    requires i < |ts|
    ensures BucketAfter(c, b, ts[..i + 1]) == Some(Asked(c, BucketAfter(c, b, ts[..i]), ts[i]))
    decreases i
  {
    if i == 0 {
      assert ts[..1][1..] == [];
    } else {
      assert ts[..i + 1][1..] == ts[1..][..i] && ts[..i][1..] == ts[1..][..i - 1];
      BucketNext(c, Some(Asked(c, b, ts[0])), ts[1..], i - 1);
    }
  }

  lemma {:induction false} AloneAt(c: Config, b: Option<Bucket>, ts: seq<real>, i: nat)
    requires i < |ts|
    ensures |Alone(c, b, ts)| == |ts| && Alone(c, b, ts)[i] == Allows(c, BucketAfter(c, b, ts[..i]), ts[i])
    decreases |ts|
  {
    var next := Some(Asked(c, b, ts[0]));
    if |ts| == 1 {
      assert ts[1..] == [] && ts[..0] == [];
    } else {
      AloneAt(c, next, ts[1..], if i == 0 then 0 else i - 1);
      if i > 0 { assert ts[..i][1..] == ts[1..][..i - 1]; }
    }
  }

  /** What is left for request `i` of the tokens since request `j`: a full bucket at `j`, what
      flowed in since, less what was allowed from `j` on. */
  function Left(c: Config, ts: seq<real>, ds: seq<bool>, i: nat, j: nat): real
    requires j <= i < |ts| && |ds| == |ts|
  {
    c.burst + Flow(c.rate, ts[i] - ts[j]) - Count(ds[j..i]) as real
  }

  lemma CountNext(ds: seq<bool>, j: nat, i: nat)
    requires j <= i < |ds|
    ensures Count(ds[j..i + 1]) == Count(ds[j..i]) + (if ds[i] then 1 else 0)
  {
    assert ds[j..i + 1] == ds[j..i] + [ds[i]] && [ds[i]][1..] == [];
    CountConcat(ds[j..i], [ds[i]]);
  }

  lemma LeftNext(c: Config, ts: seq<real>, ds: seq<bool>, i: nat, j: nat)
    requires j <= i && i + 1 < |ts| && |ds| == |ts|
    ensures Left(c, ts, ds, i + 1, j) == Left(c, ts, ds, i, j) + Flow(c.rate, ts[i + 1] - ts[i]) - (if ds[i] then 1.0 else 0.0)
  {
    CountNext(ds, j, i);
    FlowSplit(c.rate, ts[i + 1] - ts[i], ts[i] - ts[j]);
    assert (ts[i + 1] - ts[i]) + (ts[i] - ts[j]) == ts[i + 1] - ts[j];
  }

  lemma LeftNow(c: Config, ts: seq<real>, ds: seq<bool>, i: nat)
    requires i < |ts| && |ds| == |ts|
    ensures Left(c, ts, ds, i, i) == c.burst
  {
    assert ds[i..i] == [] && ts[i] - ts[i] == 0.0;
    assert Flow(c.rate, 0.0) == 0.0;
  }

  /** The tokens at a request are the least of what is left since any earlier one. */
  lemma {:induction false} TokensAreLeast(c: Config, ts: seq<real>, ds: seq<bool>, i: nat) returns (k: nat)
    requires ds == Alone(c, None, ts) && i < |ts| && |ds| == |ts|
    ensures var tokens := Tokens(c, BucketAfter(c, None, ts[..i]), ts[i]);
            && (forall j :: 0 <= j <= i ==> tokens <= Left(c, ts, ds, i, j))
            && k <= i && tokens == Left(c, ts, ds, i, k)
  {
    LeftNow(c, ts, ds, i);
    if i == 0 {
      assert ts[..0] == [];
      k := 0;
    } else {
      var h := i - 1;
      k := TokensAreLeast(c, ts, ds, h);
      BucketNext(c, None, ts, h);
      AloneAt(c, None, ts, h);
      var before := Tokens(c, BucketAfter(c, None, ts[..h]), ts[h]);
      var grown := before - (if ds[h] then 1.0 else 0.0) + Flow(c.rate, ts[i] - ts[h]);
      assert Tokens(c, BucketAfter(c, None, ts[..i]), ts[i]) == AtMost(grown, c.burst);
      forall j | 0 <= j <= h ensures grown <= Left(c, ts, ds, i, j) && (j == k ==> grown == Left(c, ts, ds, i, j)) {
        LeftNext(c, ts, ds, h, j);
      }
      if grown > c.burst { k := i; }
    }
  }

  /** One more than `n` requests fit into a time `d`. */
  predicate Within(c: Config, d: real, n: nat)
  {
    n as real + 1.0 <= c.burst + c.rate * d
  }

  lemma WithinFlow(c: Config, d: real, n: nat)
    ensures Within(c, d, n) <==> c.burst + Flow(c.rate, d) - n as real >= 1.0
  {
  }

  /** What was allowed since request `j`, and request `i` itself, fit into the time since. */
  ghost predicate FitsSince(c: Config, ts: seq<real>, ds: seq<bool>, j: nat, i: nat)
    requires j <= i < |ts| && |ds| == |ts|
  {
    Within(c, ts[i] - ts[j], Count(ds[j..i]))
  }

  lemma FitsIfLeft(c: Config, ts: seq<real>, ds: seq<bool>, j: nat, i: nat)
    requires j <= i < |ts| && |ds| == |ts|
    ensures FitsSince(c, ts, ds, j, i) <==> Left(c, ts, ds, i, j) >= 1.0
  {
    hide Within, Flow;
    WithinFlow(c, ts[i] - ts[j], Count(ds[j..i]));
  }

  /** Request `i` may be allowed: it fits since every earlier request and by itself. */
  ghost predicate FitsHistory(c: Config, ts: seq<real>, ds: seq<bool>, i: nat)
    requires i < |ts| && |ds| == |ts|
  {
    forall j :: 0 <= j <= i ==> FitsSince(c, ts, ds, j, i)
  }

  lemma AllowedIffFits(c: Config, ts: seq<real>, i: nat)
    requires i < |ts|
    ensures |Alone(c, None, ts)| == |ts| && (Alone(c, None, ts)[i] <==> FitsHistory(c, ts, Alone(c, None, ts), i))
  {
    AloneAt(c, None, ts, i);
    hide FitsSince, Left, Tokens;
    var ds := Alone(c, None, ts);
    var k := TokensAreLeast(c, ts, ds, i);
    var tokens := Tokens(c, BucketAfter(c, None, ts[..i]), ts[i]);
    assert tokens == Left(c, ts, ds, i, k);
    forall j | 0 <= j <= i ensures FitsSince(c, ts, ds, j, i) <==> Left(c, ts, ds, i, j) >= 1.0 {
      FitsIfLeft(c, ts, ds, j, i);
    }
    forall j | 0 <= j <= i && tokens >= 1.0 ensures FitsSince(c, ts, ds, j, i) {
      assert tokens <= Left(c, ts, ds, i, j);
    }
  }

  /** The exact decision in every run with patient clean-ups, whatever other clients do: a request
      is allowed if and only if it and the requests allowed since any earlier one fit into
      burst + rate * (the time since). */
  lemma DecisionsByHistory(c: Config, es: seq<Event>, id: Text, start: real, i: nat)
    requires Fair(c) && Clocked(start, es) && Patient(c, es) && i < |Times(es, id)|
    ensures var ts, ds := Times(es, id), Decisions(c, map[], es, id);
            |ds| == |ts| && (ds[i] <==> FitsHistory(c, ts, ds, i))
  {
    DecisionsAreOwn(c, map[], None, es, id, start);
    AllowedIffFits(c, Times(es, id), i);
  }
}
