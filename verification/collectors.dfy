/** The statistic collectors of stats.py (PortStats and FlowStats): the
    OpenFlow request each one sends, the RRD each one writes, and how the
    items of a reply become RRD rows and mirrored controller state.

    Statistic type values are those of section A.3.5 of the OpenFlow Switch
    Specification 1.0.0 (`ofp_stats_types`) and of section A.3.5 of version
    1.3 (`ofp_multipart_types`); the two agree for port and flow stats. */
module Collectors {
  import opened Base
  import Rrd

  datatype Kind = PortKind | FlowKind

  const OFPST_FLOW: nat := 1
  const OFPST_AGGREGATE: nat := 2
  const OFPST_PORT: nat := 4
  const OFPMP_FLOW: nat := 1
  const OFPMP_PORT_STATS: nat := 4

  /** OpenFlow 1.0 `OFPP_NONE`: "all ports" in a port stats request. */
  const OFPP_NONE: nat := 0xffff

  /** The statistic type tag of each kind (the same value in both dialects). */
  function KindTag(kind: Kind): nat
  {
    match kind
    case PortKind => OFPST_PORT
    case FlowKind => OFPST_FLOW
  }

  /** The body of a stats request, per dialect and kind. */
  datatype RequestBody = V1PortStats(portNo: nat) | V4PortStats | V1FlowStats | V4FlowStats

  /** A v0x01 `StatsRequest` or a v0x04 `MultipartRequest`. */
  datatype Request =
    | StatsRequest(bodyType: nat, body: RequestBody)
    | MultipartRequest(multipartType: nat, body: RequestBody)

  function TypeTag(r: Request): nat
  {
    match r
    case StatsRequest(t, _) => t
    case MultipartRequest(t, _) => t
  }

  /** `_get_versioned_request` of PortStats and FlowStats: the v0x01 dialect
      for protocol version 0x01 and the v0x04 one for every other version. */
  function VersionedRequest(kind: Kind, version: nat): (r: Request)
    ensures r.StatsRequest? <==> version == 0x01
    ensures TypeTag(r) == KindTag(kind)
    ensures kind == PortKind ==> r.body == (if version == 0x01 then V1PortStats(OFPP_NONE) else V4PortStats)
    ensures kind == FlowKind ==> r.body == (if version == 0x01 then V1FlowStats else V4FlowStats)
  {
    match kind
    case PortKind =>
      if version == 0x01 then StatsRequest(OFPST_PORT, V1PortStats(OFPP_NONE))
      else MultipartRequest(OFPMP_PORT_STATS, V4PortStats)
    case FlowKind =>
      if version == 0x01 then StatsRequest(OFPST_FLOW, V1FlowStats)
      else MultipartRequest(OFPMP_FLOW, V4FlowStats)
  }

  /** The connection a request is sent on: its switch and protocol version. */
  datatype Connection = Connection(switchId: string, version: nat, established: bool)

  /** The `ofpt_stats_request` event put on the msg_out buffer. */
  datatype Sent = Sent(destination: Connection, message: Request)

  /** Stats.request: the versioned request for the connection's protocol,
      addressed to that connection. */
  function RequestOn(kind: Kind, conn: Connection): (r: Sent)
    ensures r.destination == conn
    ensures TypeTag(r.message) == KindTag(kind)
    ensures r.message.StatsRequest? <==> conn.version == 0x01
  {
    Sent(conn, VersionedRequest(kind, conn.version))
  }

  // ------------------------------------------------------------- the RRDs

  const PortApp: string := "ports"
  const FlowApp: string := "flows"

  /** `PortStats.rrd`'s data sources, built like the source's comprehension:
      for each statistic, first the r(eceive) and then the t(ransmit) name. */
  function PortDataSources(): (r: seq<string>)
    ensures r == ["rx_bytes", "tx_bytes", "rx_dropped", "tx_dropped", "rx_errors", "tx_errors"]
  {
    var stats := ["bytes", "dropped", "errors"];
    var directions := ["r", "t"];
    var r := seq(6, i requires 0 <= i < 6 => directions[i % 2] + "x_" + stats[i / 2]);
    assert r[0] == "rx_bytes" && r[1] == "tx_bytes";
    assert r[2] == "rx_dropped" && r[3] == "tx_dropped";
    assert r[4] == "rx_errors" && r[5] == "tx_errors";
    r
  }

  const FlowDataSources: seq<string> := ["packet_count", "byte_count"]

  // ------------------------------------------------------------ listening

  /** The counters of one port in a port stats reply. */
  datatype PortStatsItem = PortStatsItem(
    portNo: nat, rxBytes: nat, txBytes: nat, rxDropped: nat, txDropped: nat, rxErrors: nat, txErrors: nat)

  /** One flow of a flow stats reply, with the id FlowFactory derives for it. */
  datatype FlowStatsItem = FlowStatsItem(flowId: string, packetCount: nat, byteCount: nat)

  /** What listen does with one item: whether the controller's live object
      is updated too, and the RRD row written. */
  datatype ItemEffect = ItemEffect(mirrored: bool, index: Key, values: map<string, nat>)

  function PortValues(ps: PortStatsItem): map<string, nat>
  {
    map["rx_bytes" := ps.rxBytes, "tx_bytes" := ps.txBytes,
        "rx_dropped" := ps.rxDropped, "tx_dropped" := ps.txDropped,
        "rx_errors" := ps.rxErrors, "tx_errors" := ps.txErrors]
  }

  /** PortStats.listen: for every port, in reply order, the switch's
      interface (when it has one for that port number) mirrors the counters,
      and the row is written to the RRD indexed `(switch.id, port_no)`. */
  function ListenPorts(switchId: string, hasInterface: nat -> bool, items: seq<PortStatsItem>): (r: seq<ItemEffect>)
    ensures |r| == |items|
    ensures forall i :: 0 <= i < |items| ==>
      && r[i].index == [KStr(switchId), KInt(items[i].portNo)]
      && r[i].mirrored == hasInterface(items[i].portNo)
      && Rrd.Complete(PortDataSources(), r[i].values)
      && Rrd.Ordered(PortDataSources(), r[i].values) == [items[i].rxBytes, items[i].txBytes,
           items[i].rxDropped, items[i].txDropped, items[i].rxErrors, items[i].txErrors]
  {
    seq(|items|, i requires 0 <= i < |items| =>
      ItemEffect(hasInterface(items[i].portNo), [KStr(switchId), KInt(items[i].portNo)], PortValues(items[i])))
  }

  /** FlowStats.listen: for every flow, in reply order, the controller's flow
      with the same id (when there is one) takes the new stats, and the row
      is written to the RRD indexed `(switch.id, flow.id)`. */
  function ListenFlows(switchId: string, hasFlow: string -> bool, items: seq<FlowStatsItem>): (r: seq<ItemEffect>)
    ensures |r| == |items|
    ensures forall i :: 0 <= i < |items| ==>
      && r[i].index == [KStr(switchId), KStr(items[i].flowId)]
      && r[i].mirrored == hasFlow(items[i].flowId)
      && Rrd.Complete(FlowDataSources, r[i].values)
      && Rrd.Ordered(FlowDataSources, r[i].values) == [items[i].packetCount, items[i].byteCount]
  {
    seq(|items|, i requires 0 <= i < |items| =>
      ItemEffect(hasFlow(items[i].flowId), [KStr(switchId), KStr(items[i].flowId)],
                 map["packet_count" := items[i].packetCount, "byte_count" := items[i].byteCount]))
  }

  /** Every row PortStats.listen writes is accepted by RRD.update: the index
      names a file, no data source is missing, and the update string carries
      the six counters in declaration order. Whether the controller mirrors
      the port plays no part in it. */
  lemma ListenPortsUpdates(lib: Rrd.RrdTool, s: Rrd.Settings, switchId: string, hasInterface: nat -> bool,
                           items: seq<PortStatsItem>, i: nat)
    requires i < |items|
    ensures var e := ListenPorts(switchId, hasInterface, items)[i];
      var out := Rrd.Update(lib, s, PortApp, PortDataSources(), e.index, e.values, Rrd.Now);
      && out.error.None?
      && Rrd.ParseUpdate(out.issued[|out.issued| - 1].line) == (Rrd.Now,
           [items[i].rxBytes, items[i].txBytes, items[i].rxDropped,
            items[i].txDropped, items[i].rxErrors, items[i].txErrors])
  {
    var e := ListenPorts(switchId, hasInterface, items)[i];
    assert e.index[..1] == [KStr(switchId)];
    assert Rrd.GetRrd(s.dir, PortApp, e.index).Success?;
  }

  /** Every row FlowStats.listen writes is accepted by RRD.update with the
      packet and byte counts in declaration order. */
  lemma ListenFlowsUpdates(lib: Rrd.RrdTool, s: Rrd.Settings, switchId: string, hasFlow: string -> bool,
                           items: seq<FlowStatsItem>, i: nat)
    requires i < |items|
    ensures var e := ListenFlows(switchId, hasFlow, items)[i];
      var out := Rrd.Update(lib, s, FlowApp, FlowDataSources, e.index, e.values, Rrd.Now);
      && out.error.None?
      && Rrd.ParseUpdate(out.issued[|out.issued| - 1].line) == (Rrd.Now, [items[i].packetCount, items[i].byteCount])
  {
    var e := ListenFlows(switchId, hasFlow, items)[i];
    assert e.index[..1] == [KStr(switchId)];
    assert Rrd.GetRrd(s.dir, FlowApp, e.index).Success?;
  }
}
