/** Topic aliases: what `resolvePublishTopic` recovers from a publisher's alias use. */
module Aliases {
  import opened Bytes
  import opened Packets

  type AliasMap = map<nat, Text>

  /** The topic and alias fields of a PUBLISH; alias 0 means none. */
  datatype Use = Use(topic: Text, topicAlias: nat)

  /** The resolved topic and the aliases stored afterwards. */
  datatype Resolved = Resolved(topic: Result<Text>, aliases: AliasMap)

  function Resolve(version: nat, max: nat, aliases: AliasMap, u: Use): Resolved
  {
    if version != V50 then Resolved(Ok(u.topic), aliases)
    else if u.topicAlias > 0 && max > 0 && u.topicAlias > max then Resolved(Err(ProtocolViolation), aliases)
    else if max == 0 && u.topicAlias > 0 then Resolved(Err(ProtocolViolation), aliases)
    else if u.topic == [] then
      (if u.topicAlias in aliases then Resolved(Ok(aliases[u.topicAlias]), aliases)
       else Resolved(Err(ProtocolViolation), aliases))
    else if u.topicAlias > 0 && max > 0 then Resolved(Ok(u.topic), aliases[u.topicAlias := u.topic])
    else Resolved(Ok(u.topic), aliases)
  }

  /** The aliases stored after a run of PUBLISH packets. */
  function Stored(max: nat, uses: seq<Use>): AliasMap
  {
    if uses == [] then map[]
    else Resolve(V50, max, Stored(max, uses[..|uses| - 1]), uses[|uses| - 1]).aliases
  }

  // ----- the meaning of an alias, by history ------------------------------------------

  /** The packet gives the alias a topic. */
  predicate Sets(max: nat, u: Use, a: nat)
  {
    u.topic != [] && u.topicAlias == a && 1 <= a <= max
  }

  /** Section 3.3.2.3.4 of MQTT 5.0: an alias means the topic last sent with it. */
  function LastSet(max: nat, uses: seq<Use>, a: nat): Option<Text>
  {
    if uses == [] then None
    else
      var last := uses[|uses| - 1];
      if Sets(max, last, a) then Some(last.topic) else LastSet(max, uses[..|uses| - 1], a)
  }

  /** What a version 5 PUBLISH means after a history of packets. */
  function Meant(max: nat, history: seq<Use>, u: Use): Result<Text>
  {
    if u.topicAlias > max then Err(ProtocolViolation)
    else if u.topic != [] then Ok(u.topic)
    else
      match LastSet(max, history, u.topicAlias)
      case Some(t) => Ok(t)
      case None => Err(ProtocolViolation)
  }

  /** In every run each stored alias lies in 1..max and maps to the latest topic that set it,
      and every alias that was set is stored. */
  lemma {:induction false} StoredIsLastSet(max: nat, uses: seq<Use>, a: nat)
    ensures a in Stored(max, uses) <==> LastSet(max, uses, a).Some?
    ensures a in Stored(max, uses) ==> 1 <= a <= max && LastSet(max, uses, a) == Some(Stored(max, uses)[a])
  {
    if uses != [] {
      StoredIsLastSet(max, uses[..|uses| - 1], a);
    }
  }

  /** Resolution gives each packet exactly its meaning, after any history. */
  lemma ResolveIsMeant(max: nat, history: seq<Use>, u: Use)
    ensures Resolve(V50, max, Stored(max, history), u).topic == Meant(max, history, u)
  {
    StoredIsLastSet(max, history, u.topicAlias);
  }

  // ----- whole streams ---------------------------------------------------------------

  /** A sender may send a topic in full, with or without an alias, or by an alias that stands
      for it. */
  predicate Allowed(max: nat, history: seq<Use>, t: Text, u: Use)
  {
    && u.topicAlias <= max
    && (u.topic == t || (u.topic == [] && LastSet(max, history, u.topicAlias) == Some(t)))
  }

  /** `uses` is a compression of the non-empty topics `ts`. */
  ghost predicate Compresses(max: nat, ts: seq<Text>, uses: seq<Use>)
  {
    |uses| == |ts| && forall i :: 0 <= i < |ts| ==> ts[i] != [] && Allowed(max, uses[..i], ts[i], uses[i])
  }

  /** The topics recovered from a stream, up to and including the first error. */
  function ResolveAll(version: nat, max: nat, aliases: AliasMap, uses: seq<Use>): seq<Result<Text>>
    decreases |uses|
  {
    if uses == [] then []
    else
      var r := Resolve(version, max, aliases, uses[0]);
      if r.topic.Err? then [r.topic] else [r.topic] + ResolveAll(version, max, r.aliases, uses[1..])
  }

  function Succeeds(ts: seq<Text>): (r: seq<Result<Text>>)
    ensures |r| == |ts|
  {
    seq(|ts|, i requires 0 <= i < |ts| => Ok(ts[i]))
  }

  lemma StoredNext(max: nat, uses: seq<Use>, k: nat)
    requires k < |uses|
    ensures Stored(max, uses[..k + 1]) == Resolve(V50, max, Stored(max, uses[..k]), uses[k]).aliases
  {
    assert uses[..k + 1][..k] == uses[..k] && uses[..k + 1][k] == uses[k];
  }

  lemma ResolveAllNext(max: nat, aliases: AliasMap, uses: seq<Use>, k: nat, t: Text)
    requires k < |uses| && Resolve(V50, max, aliases, uses[k]).topic == Ok(t)
    ensures ResolveAll(V50, max, aliases, uses[k..])
            == [Ok(t)] + ResolveAll(V50, max, Resolve(V50, max, aliases, uses[k]).aliases, uses[k + 1..])
  {
    assert uses[k..][1..] == uses[k + 1..];
  }

  lemma {:induction false} ResolveFrom(max: nat, ts: seq<Text>, uses: seq<Use>, k: nat)
    requires Compresses(max, ts, uses) && k <= |ts|
    ensures ResolveAll(V50, max, Stored(max, uses[..k]), uses[k..]) == Succeeds(ts[k..])
    decreases |ts| - k
  {
    if k < |ts| {
      assert Allowed(max, uses[..k], ts[k], uses[k]);
      ResolveIsMeant(max, uses[..k], uses[k]);
      ResolveAllNext(max, Stored(max, uses[..k]), uses, k, ts[k]);
      StoredNext(max, uses, k);
      ResolveFrom(max, ts, uses, k + 1);
      assert Succeeds(ts[k..]) == [Ok(ts[k])] + Succeeds(ts[k + 1..]);
    }
  }

  /** Aliases preserve meaning: from any compressed stream the original topics come back. */
  lemma AliasesPreserveTopics(max: nat, ts: seq<Text>, uses: seq<Use>)
    requires Compresses(max, ts, uses)
    ensures ResolveAll(V50, max, map[], uses) == Succeeds(ts)
  {
    ResolveFrom(max, ts, uses, 0);
    assert uses[..0] == [] && uses[0..] == uses && ts[0..] == ts;
  }
}
