/** The application's main loop (class Main in main.py): the registry of
    statistic collectors, which switches are polled on every tick, and how a
    stats reply is routed to the collector that asked for it. */
module Dispatch {
  import opened Base
  import opened Collectors

  // ------------------------------------------------------------- registry

  /** Main.setup's `self._stats`: collectors keyed by statistic type tag, in
      declaration order. */
  const Registry: seq<(nat, Kind)> := [(OFPST_PORT, PortKind), (OFPST_FLOW, FlowKind)]

  /** `self._stats[tag]` when `tag in self._stats`. */
  function Lookup(tag: nat): (r: Option<Kind>)
  {
    LookupIn(Registry, tag)
  }

  function LookupIn(registry: seq<(nat, Kind)>, tag: nat): (r: Option<Kind>)
    ensures r.Some? <==> exists i :: 0 <= i < |registry| && registry[i].0 == tag
    ensures r.Some? ==> exists i :: 0 <= i < |registry| && registry[i] == (tag, r.value)
  {
    if |registry| == 0 then None
    else if registry[0].0 == tag then Some(registry[0].1)
    else
      var r := LookupIn(registry[1..], tag);
      assert forall i :: 1 <= i < |registry| ==> registry[i] == registry[1..][i - 1];
      r
  }

  /** The registry is closed: only port and flow stats have a collector, so
      aggregate stats (and every other type) have none. */
  lemma RegistryClosed(tag: nat)
    ensures Lookup(tag).Some? <==> tag == OFPST_PORT || tag == OFPST_FLOW
    ensures Lookup(tag).Some? ==> KindTag(Lookup(tag).value) == tag
    ensures Lookup(OFPST_AGGREGATE).None?
  {
    assert |Registry| == 2 && Registry[0] == (OFPST_PORT, PortKind) && Registry[1] == (OFPST_FLOW, FlowKind);
    assert Registry[1..] == [(OFPST_FLOW, FlowKind)];
    assert Registry[1..][1..] == [];
  }

  /** The reply to every request a collector sends comes back to that same
      collector, whichever protocol version carried it. */
  lemma RequestReplyRoundTrip(kind: Kind, version: nat)
    ensures Lookup(TypeTag(VersionedRequest(kind, version))) == Some(kind)
  {
    RegistryClosed(KindTag(kind));
  }

  // -------------------------------------------------------------- polling

  /** A switch known to the controller, with its connection if any. */
  datatype Switch = Switch(id: string, connection: Option<Connection>)

  /** `switch.is_connected()`: a connection in the established state. */
  predicate IsConnected(sw: Switch)
  {
    sw.connection.Some? && sw.connection.value.established
  }

  /** The filter of Main.execute: connected switches speaking OpenFlow 1.0. */
  predicate Polled(sw: Switch)
  {
    IsConnected(sw) && sw.connection.value.version == 0x01
  }

  /** Main._update_stats: every registered collector, in registry order,
      sends its request on the switch's connection, provided there is one. */
  function UpdateStats(sw: Switch): (r: seq<Sent>)
    ensures sw.connection.None? ==> r == []
    ensures sw.connection.Some? ==> (
      && |r| == |Registry|
      && forall i :: 0 <= i < |Registry| ==>
        && r[i].destination == sw.connection.value
        && TypeTag(r[i].message) == Registry[i].0
        && (r[i].message.StatsRequest? <==> sw.connection.value.version == 0x01))
  {
    if sw.connection.None? then []
    else seq(|Registry|, i requires 0 <= i < |Registry| => RequestOn(Registry[i].1, sw.connection.value))
  }

  /** Main.execute: one tick of the polling loop, the requests sent, in the
      order the switches are listed. */
  function Execute(switches: seq<Switch>): (r: seq<Sent>)
    ensures forall i :: 0 <= i < |r| ==>
      && r[i].message.StatsRequest?
      && r[i].destination.established
      && r[i].destination.version == 0x01
  {
    if |switches| == 0 then []
    else (if Polled(switches[0]) then UpdateStats(switches[0]) else []) + Execute(switches[1..])
  }

  /** Polling is switch by switch: a tick over two lists of switches is the
      tick over the first followed by the tick over the second. */
  lemma {:induction false} ExecuteConcat(a: seq<Switch>, b: seq<Switch>)
    ensures Execute(a + b) == Execute(a) + Execute(b)
  {
    if |a| == 0 {
      assert a + b == b;
    } else {
      assert (a + b)[0] == a[0];
      assert (a + b)[1..] == a[1..] + b;
      ExecuteConcat(a[1..], b);
    }
  }

  /** A tick over one switch: its collectors' requests when it is polled,
      nothing otherwise. */
  lemma ExecuteSingle(sw: Switch)
    ensures !Polled(sw) ==> Execute([sw]) == []
    ensures Polled(sw) ==> (Execute([sw]) ==
      [RequestOn(PortKind, sw.connection.value), RequestOn(FlowKind, sw.connection.value)])
  {
    assert [sw][1..] == [];
    assert Execute([sw]) == (if Polled(sw) then UpdateStats(sw) else []);
  }

  /** A switch that is not polled is skipped without affecting the others;
      a polled one receives one request from every collector. */
  lemma ExecuteOne(before: seq<Switch>, sw: Switch, after: seq<Switch>)
    ensures !Polled(sw) ==> Execute(before + [sw] + after) == Execute(before) + Execute(after)
    ensures Polled(sw) ==> (Execute(before + [sw] + after) ==
      Execute(before) + [RequestOn(PortKind, sw.connection.value), RequestOn(FlowKind, sw.connection.value)]
      + Execute(after))
  {
    ExecuteConcat(before + [sw], after);
    ExecuteConcat(before, [sw]);
    ExecuteSingle(sw);
  }

  // -------------------------------------------------------------- routing

  /** The body of a stats reply, as pyof parsed it. */
  datatype ReplyBody = PortItems(ports: seq<PortStatsItem>) | FlowItems(flows: seq<FlowStatsItem>) | OtherItems

  /** A v0x01 `StatsReply` or a v0x04 `MultipartReply`: only the former has
      a `body_type` attribute, only the latter a `multipart_type`. */
  datatype Message =
    | StatsReply(bodyType: nat, body: ReplyBody)
    | MultipartReply(multipartType: nat, body: ReplyBody)

  /** What Main._listen does with a reply: hand the body to a collector's
      listen, with the switch the reply came from, or hand it to nobody. */
  datatype Routed = Listened(kind: Kind, switchId: string, body: ReplyBody) | NoListener(tag: nat)

  /** Main._listen, with the logging of an unrouted reply made harmless:
      a registered tag goes to its collector, any other to nobody. */
  function Listen(source: string, msg: Message, tag: nat): (r: Result<Routed>)
    ensures r.Success?
    ensures r.value.Listened? <==> Lookup(tag).Some?
    ensures r.value.Listened? ==> r.value == Listened(Lookup(tag).value, source, msg.body) && KindTag(r.value.kind) == tag
  {
    match Lookup(tag)
    case Some(kind) => Success(Listened(kind, source, msg.body))
    case None => Success(NoListener(tag))
  }

  /** Main.listen_v0x01: the reply's `body_type` is its tag. */
  function ListenV0x01(source: string, msg: Message): (r: Result<Routed>)
    requires msg.StatsReply?
    ensures r.Success? && (r.value.Listened? <==> msg.bodyType == OFPST_PORT || msg.bodyType == OFPST_FLOW)
  {
    RegistryClosed(msg.bodyType);
    Listen(source, msg, msg.bodyType)
  }

  /** Main.listen_v0x04: the reply's `multipart_type` is its tag. */
  function ListenV0x04(source: string, msg: Message): (r: Result<Routed>)
    requires msg.MultipartReply?
    ensures r.Success? && (r.value.Listened? <==> msg.multipartType == OFPMP_PORT_STATS || msg.multipartType == OFPMP_FLOW)
  {
    RegistryClosed(msg.multipartType);
    Listen(source, msg, msg.multipartType)
  }

  /** Both dialects are routed alike: a v0x01 and a v0x04 reply with the
      same tag and body reach the same collector, or none. */
  lemma ListenDialectsAgree(source: string, tag: nat, body: ReplyBody)
    ensures ListenV0x01(source, StatsReply(tag, body)) == ListenV0x04(source, MultipartReply(tag, body))
    ensures ListenV0x01(source, StatsReply(tag, body)).value ==
      (if tag == OFPST_PORT then Listened(PortKind, source, body)
       else if tag == OFPST_FLOW then Listened(FlowKind, source, body)
       else NoListener(tag))
  {
  }

  /** Main._listen as written: the debug message of an unrouted reply reads
      `msg.body_type`, which a v0x04 MultipartReply does not have. */
  function ListenAsWritten(source: string, msg: Message, tag: nat): (r: Result<Routed>)
    ensures Lookup(tag).Some? ==> r == Listen(source, msg, tag)
    ensures Lookup(tag).None? ==> (r.Failure? <==> msg.MultipartReply?)
    ensures msg.StatsReply? ==> r == Listen(source, msg, tag)
    ensures Lookup(tag).None? && msg.MultipartReply? ==> r == Failure(AttributeError("body_type"))
  {
    match Lookup(tag)
    case Some(kind) => Success(Listened(kind, source, msg.body))
    case None =>
      if msg.StatsReply? then Success(NoListener(tag))
      else Failure(AttributeError("body_type"))
  }

  /** An aggregate-stats multipart reply, which no collector handles, makes
      the as-written listener raise instead of ignoring the reply. */
  lemma ListenAsWrittenFlaw()
    ensures ListenAsWritten("s", MultipartReply(OFPST_AGGREGATE, OtherItems), OFPST_AGGREGATE)
      == Failure(AttributeError("body_type"))
    ensures ListenV0x04("s", MultipartReply(OFPST_AGGREGATE, OtherItems)) == Success(NoListener(OFPST_AGGREGATE))
  {
  }
}
