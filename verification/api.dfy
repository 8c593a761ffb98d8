/** The REST layer of the statistics application (stats_api.py): the points
    of one port or flow, with the 404 document for a missing RRD, and the
    lists of ports and flows with their latest values. */
module Api {
  import opened Base
  import opened Text
  import Rrd
  import opened StatsTable
  import opened Sorting
  import Collectors

  /** `get_points`' default number of points. */
  const DefaultPoints: int := 30

  /** The JSON document of an answer: `{'data': ...}` or `{'errors': ...}`. */
  datatype Doc = Data(table: Table) | Errors(status: string, title: string, detail: string)

  // ----------------------------------------------------- the 404 document

  /** `repr` of one index component. */
  function PartRepr(p: KeyPart): string
  {
    match p
    case KStr(s) => "'" + s + "'"
    case KInt(n) => NatToString(n)
  }

  function CommaJoin(parts: seq<string>): string
  {
    if |parts| == 0 then ""
    else if |parts| == 1 then parts[0]
    else parts[0] + ", " + CommaJoin(parts[1..])
  }

  function PartReprs(index: Key): (r: seq<string>)
    ensures |r| == |index| && forall i :: 0 <= i < |index| ==> r[i] == PartRepr(index[i])
  {
    seq(|index|, i requires 0 <= i < |index| => PartRepr(index[i]))
  }

  /** `repr` of an index tuple; a one-element tuple keeps its trailing comma. */
  function IndexRepr(index: Key): string
  {
    "(" + CommaJoin(PartReprs(index)) + (if |index| == 1 then "," else "") + ")"
  }

  /** The message of the FileNotFoundError raised by RRD.fetch. */
  function NotFoundMessage(app: string, index: Key): string
  {
    "RRD for app " + app + " and index " + IndexRepr(index) + " not found"
  }

  /** StatsAPI._get_rrd_not_found_error. */
  function NotFoundDoc(app: string, index: Key): (d: Doc)
    ensures d.Errors? && d.status == "404" && d.title == "Database not found."
    ensures |d.detail| >= 22 && d.detail[..12] == "RRD for app " && d.detail[|d.detail| - 10..] == " not found"
  {
    Errors("404", "Database not found.", NotFoundMessage(app, index))
  }

  // ------------------------------------------------------------- points

  /** A query parameter, `request.args.get(name)`: absent, or a str. */
  function RequestArg(a: Option<string>): Rrd.Arg
  {
    match a
    case None => Rrd.NoArg
    case Some(s) => Rrd.StrArg(s)
  }

  /** StatsAPI.get_points: the fetched points as lists without null rows; a
      missing RRD gives the 404 document instead, every other exception
      propagates. */
  function GetPoints(lib: Rrd.RrdTool, s: Rrd.Settings, app: string, index: Key,
                     start: Option<string>, end: Option<string>, nPoints: int, now: int): (r: Result<Doc>)
    ensures Rrd.GetRrd(s.dir, app, index).Failure? ==> r == Failure(Rrd.GetRrd(s.dir, app, index).error)
    ensures Rrd.GetRrd(s.dir, app, index).Success? && !lib.present(Rrd.GetRrd(s.dir, app, index).value) ==>
      r == Success(NotFoundDoc(app, index))
    ensures r.Success? && r.value.Data? ==>
      && lib.present(Rrd.GetRrd(s.dir, app, index).value)
      && Aligned(r.value.table)
      && forall j :: 0 <= j < |r.value.table.timestamps| ==> HasValue(r.value.table, j)
    ensures var f := Rrd.Fetch(lib, s, app, index, RequestArg(start), RequestArg(end), Some(nPoints), now);
      && (f.Success? ==> r == Success(Data(FetchData(f.value))))
      && (f.Failure? && !f.error.NotFound? ==> r == Failure(f.error))
  {
    match Rrd.Fetch(lib, s, app, index, RequestArg(start), RequestArg(end), Some(nPoints), now)
    case Failure(NotFound(a, i)) => Success(NotFoundDoc(a, i))
    case Failure(e) => Failure(e)
    case Success(f) => Success(Data(FetchData(f)))
  }

  /** The 404 document is answered exactly when the RRD file is missing. */
  lemma GetPointsNotFound(lib: Rrd.RrdTool, s: Rrd.Settings, app: string, index: Key,
                          start: Option<string>, end: Option<string>, nPoints: int, now: int)
    ensures var r := GetPoints(lib, s, app, index, start, end, nPoints, now);
      (r.Success? && r.value.Errors?) <==>
        (Rrd.GetRrd(s.dir, app, index).Success? && !lib.present(Rrd.GetRrd(s.dir, app, index).value))
  {
    var f := Rrd.Fetch(lib, s, app, index, RequestArg(start), RequestArg(end), Some(nPoints), now);
    if Rrd.GetRrd(s.dir, app, index).Success? && lib.present(Rrd.GetRrd(s.dir, app, index).value) {
      assert !(f.Failure? && f.error.NotFound?);
    }
  }

  /** PortStatsAPI.get_stats: the default number of points of port `port`
      of switch `dpid`. */
  function GetPortStats(lib: Rrd.RrdTool, s: Rrd.Settings, dpid: string, port: nat,
                        start: Option<string>, end: Option<string>, now: int): (r: Result<Doc>)
    ensures !lib.present(Rrd.GetRrd(s.dir, Collectors.PortApp, [KStr(dpid), KInt(port)]).value) ==>
      r == Success(NotFoundDoc(Collectors.PortApp, [KStr(dpid), KInt(port)]))
    ensures r.Failure? <==>
      lib.present(Rrd.GetRrd(s.dir, Collectors.PortApp, [KStr(dpid), KInt(port)]).value) && start.None? && end.Some?
    ensures r.Failure? ==> r.error == TypeError
  {
    var index := [KStr(dpid), KInt(port)];
    assert index[..|index| - 1] == [KStr(dpid)];
    GetPoints(lib, s, Collectors.PortApp, index, start, end, DefaultPoints, now)
  }

  /** Without query parameters, the stats of a port with an RRD are
      rrdtool's reply for the last 30 intervals before `now`, at a
      resolution of one interval, with its null rows removed. */
  lemma PortStatsDefaultWindow(lib: Rrd.RrdTool, s: Rrd.Settings, dpid: string, port: nat, now: int)
    requires lib.present(Rrd.GetRrd(s.dir, Collectors.PortApp, PortIndex(dpid, port)).value)
    requires s.statsInterval > 0
    ensures var reply := lib.fetch([Rrd.GetRrd(s.dir, Collectors.PortApp, PortIndex(dpid, port)).value, "AVERAGE",
                                    "--start", IntToString(now - DefaultPoints * s.statsInterval - 1),
                                    "--end", IntToString(now - 1),
                                    "-a", "-r", IntToString(s.statsInterval) + "s"]);
      GetPortStats(lib, s, dpid, port, None, None, now)
        == Success(Data(FetchData(Rrd.Fetched(Rrd.TimestampRange(reply), reply.cols, reply.rows))))
  {
    var index := PortIndex(dpid, port);
    assert index[..|index| - 1] == [KStr(dpid)];
    var reply := lib.fetch([Rrd.GetRrd(s.dir, Collectors.PortApp, index).value, "AVERAGE",
                            "--start", IntToString(now - DefaultPoints * s.statsInterval - 1),
                            "--end", IntToString(now - 1),
                            "-a", "-r", IntToString(s.statsInterval) + "s"]);
    var f := Rrd.Fetch(lib, s, Collectors.PortApp, index, Rrd.NoArg, Rrd.NoArg, Some(DefaultPoints), now);
    assert f == Success(Rrd.Fetched(Rrd.TimestampRange(reply), reply.cols, reply.rows)) by {
      Rrd.FetchDefaultWindow(lib, s, Collectors.PortApp, index, DefaultPoints, now);
    }
    assert GetPortStats(lib, s, dpid, port, None, None, now) == Success(Data(FetchData(f.value))) by {
      assert RequestArg(None) == Rrd.NoArg;
      assert GetPortStats(lib, s, dpid, port, None, None, now)
          == GetPoints(lib, s, Collectors.PortApp, index, None, None, DefaultPoints, now);
    }
  }

  /** The index of a port is shown as a Python tuple in the 404 detail: the
      switch id quoted, the port number bare. */
  lemma NonExistentPortDetail()
    ensures IndexRepr([KStr("non-existent-switch"), KInt(123)]) == "('non-existent-switch', 123)"
  {
    var index := [KStr("non-existent-switch"), KInt(123)];
    var inner := CommaJoin(PartReprs(index));
    ExampleParts();
    assert IndexRepr(index) == "(" + inner + ")";
    ExampleParens();
  }

  // The steps of NonExistentPortDetail, one literal string fact each, so
  // that no single proof has to normalise the whole string.

  lemma ExampleParens()
    ensures "(" + "'non-existent-switch', 123" + ")" == "('non-existent-switch', 123)"
  {
  }

  lemma ExampleParts()
    ensures CommaJoin(PartReprs([KStr("non-existent-switch"), KInt(123)])) == "'non-existent-switch', 123"
  {
    var reprs := PartReprs([KStr("non-existent-switch"), KInt(123)]);
    ExampleDigits();
    ExampleQuoted();
    assert reprs[0] == "'non-existent-switch'" && reprs[1] == "123";
    assert reprs == ["'non-existent-switch'", "123"];
    assert CommaJoin(["'non-existent-switch'", "123"]) == "'non-existent-switch'" + ", " + "123";
  }

  lemma ExampleQuoted()
    ensures PartRepr(KStr("non-existent-switch")) == "'non-existent-switch'"
  {
  }

  lemma ExampleDigits()
    ensures PartRepr(KInt(123)) == "123"
  {
    assert NatToString(1) == "1";
    assert NatToString(12) == "12";
  }

  /** A request for a port the application has no RRD for is answered with
      the 404 document, not with an exception, whatever the query
      parameters. */
  lemma NonExistentPort(lib: Rrd.RrdTool, s: Rrd.Settings, start: Option<string>, end: Option<string>, now: int)
    requires !lib.present(Rrd.GetRrd(s.dir, Collectors.PortApp, PortIndex("non-existent-switch", 123)).value)
    ensures var r := GetPortStats(lib, s, "non-existent-switch", 123, start, end, now);
      && r.Success? && r.value.Errors? && r.value.status == "404" && r.value.title == "Database not found."
      && r.value.detail == "RRD for app " + Collectors.PortApp + " and index " + "('non-existent-switch', 123)" + " not found"
  {
    NonExistentPortDetail();
  }

  // ------------------------------------------------------------- latest

  /** The items' stats in order, or the first exception one of them raises. */
  function MapResult<I, T>(items: seq<I>, stat: I -> Result<T>): (r: Result<seq<T>>)
    ensures r.Success? ==> |r.value| == |items| && forall i :: 0 <= i < |items| ==> stat(items[i]) == Success(r.value[i])
    ensures r.Failure? <==> exists i :: 0 <= i < |items| && stat(items[i]).Failure?
    ensures r.Failure? ==> exists i :: (0 <= i < |items| && stat(items[i]) == Failure(r.error)
      && forall j :: 0 <= j < i ==> stat(items[j]).Success?)
  {
    if |items| == 0 then Success([])
    else
      var head :- stat(items[0]);
      var tail := MapResult(items[1..], stat);
      assert forall i :: 1 <= i < |items| ==> items[i] == items[1..][i - 1];
      if tail.Failure? then
        assert exists i :: 1 <= i < |items| && stat(items[i]) == Failure(tail.error)
          && forall j :: 0 <= j < i ==> stat(items[j]).Success? by {
          var k :| 0 <= k < |items| - 1 && stat(items[1..][k]) == Failure(tail.error)
            && forall j :: 0 <= j < k ==> stat(items[1..][j]).Success?;
          assert forall j :: 1 <= j < k + 1 ==> stat(items[j]).Success? by {
            forall j | 1 <= j < k + 1 ensures stat(items[j]).Success? {
              assert items[j] == items[1..][j - 1];
            }
          }
        }
        Failure(tail.error)
      else
        Success([head] + tail.value)
  }

  /** StatsAPI.get_latest: no data for a switch the controller does not
      know; otherwise the latest stats of every item the switch lists. */
  function GetLatest<S, I, T>(sw: Option<S>, items: S -> seq<I>, stat: I -> Result<T>): (r: Result<seq<T>>)
    ensures sw.None? ==> r == Success([])
    ensures sw.Some? && r.Success? ==>
      && |r.value| == |items(sw.value)|
      && forall i :: 0 <= i < |r.value| ==> stat(items(sw.value)[i]) == Success(r.value[i])
    ensures sw.Some? ==> (r.Failure? <==> exists i :: 0 <= i < |items(sw.value)| && stat(items(sw.value)[i]).Failure?)
  {
    match sw
    case None => Success([])
    case Some(x) => MapResult(items(x), stat)
  }

  // -------------------------------------------------------------- ports

  /** A port of a switch, with the speed the controller knows for it. */
  datatype Interface = Interface(portNumber: nat, name: string, address: string, speed: Option<real>)

  /** The row `_get_latest_stats` builds: the latest counters of the port
      plus `port`, `name`, `mac` and `speed`. */
  datatype PortRow = PortRow(stats: map<string, Cell>, port: nat, name: string, mac: string, speed: Option<real>)

  /** The row after `_add_utilization`: the utilisation columns added, and
      the warning logged (port and shortened dpid) when the speed is
      unknown. */
  datatype Utilized = Utilized(row: PortRow, util: map<string, Cell>, warning: Option<(nat, string)>)

  /** The dpid as logged: ids of 22 characters or more keep their first and
      last three characters around an ellipsis. */
  function ShortDpid(dpid: string): (r: string)
    ensures |dpid| < 22 ==> r == dpid
    ensures |dpid| >= 22 ==> |r| == 9 && r[..3] == dpid[..3] && r[3..6] == "..." && r[6..] == dpid[|dpid| - 3..]
  {
    if |dpid| >= 22 then dpid[..3] + "..." + dpid[|dpid| - 3..] else dpid
  }

  /** Shortening is idempotent: a shortened dpid is short. */
  lemma ShortDpidIdempotent(dpid: string)
    ensures ShortDpid(ShortDpid(dpid)) == ShortDpid(dpid)
    ensures |ShortDpid(dpid)| <= |dpid| && |ShortDpid(dpid)| < 22
  {
  }

  /** `row[bytes_col] / speed` as written: a missing counter raises
      KeyError, a null one TypeError, a zero speed ZeroDivisionError. */
  function UtilizationAsWritten(stats: map<string, Cell>, col: string, speed: real): (r: Result<Cell>)
    ensures col !in stats ==> r == Failure(KeyError(col))
    ensures r.Success? ==> col in stats && stats[col].Value? && r.value.Value? && r.value.x * speed == stats[col].x
    ensures col in stats && stats[col].Value? && speed != 0.0 ==> r.Success?
    ensures col in stats && stats[col].Null? ==> r == Failure(TypeError)
    ensures col in stats && stats[col].Value? && speed == 0.0 ==> r == Failure(ZeroDivisionError)
  {
    if col !in stats then Failure(KeyError(col))
    else match stats[col]
      case Null => Failure(TypeError)
      case Value(x) => if speed == 0.0 then Failure(ZeroDivisionError) else Success(Value(x / speed))
  }

  /** A counter of the row, zero when the row lacks it. */
  function CounterOrZero(stats: map<string, Cell>, col: string): real
  {
    if col in stats && stats[col].Value? then stats[col].x else 0.0
  }

  /** `u` is the share `counter / speed`: times the speed it gives back
      the counter. */
  predicate Share(u: Cell, speed: real, counter: real)
  {
    u.Value? && u.x * speed == counter
  }

  /** The utilisation with a missing counter read as zero, as for a port
      whose RRD does not exist yet. */
  function Utilization(stats: map<string, Cell>, col: string, speed: real): (r: Result<Cell>)
    ensures r.Failure? <==> (col in stats && stats[col].Null?) || speed == 0.0
    ensures r.Failure? ==> r.error == (if col in stats && stats[col].Null? then TypeError else ZeroDivisionError)
    ensures r.Success? ==> r.value.Value? && r.value.x * speed == CounterOrZero(stats, col)
  {
    var counter := if col in stats then stats[col] else Value(0.0);
    match counter
    case Null => Failure(TypeError)
    case Value(x) => if speed == 0.0 then Failure(ZeroDivisionError) else Success(Value(x / speed))
  }

  /** Both utilisations agree wherever the as-written one succeeds. */
  lemma UtilizationExtends(stats: map<string, Cell>, col: string, speed: real)
    requires UtilizationAsWritten(stats, col, speed).Success?
    ensures Utilization(stats, col, speed) == UtilizationAsWritten(stats, col, speed)
  {
  }

  /** PortStatsAPI._add_utilization, with a missing counter read as zero.
      Unknown speed: both utilisations are null and a warning names the
      port and the shortened dpid. Known speed: each utilisation is the
      byte counter over the speed. The row itself is left unchanged. */
  function AddUtilization(row: PortRow, dpid: string): (r: Result<Utilized>)
    ensures r.Success? ==> r.value.row == row && r.value.util.Keys == {"rx_util", "tx_util"}
    ensures row.speed.None? ==> r == Success(Utilized(row, map["rx_util" := Null, "tx_util" := Null], Some((row.port, ShortDpid(dpid)))))
    ensures row.speed.Some? ==> (r.Success? <==>
      row.speed.value != 0.0 && (forall c :: c in ["rx_bytes", "tx_bytes"] && c in row.stats ==> row.stats[c].Value?))
    ensures row.speed.Some? && r.Success? ==>
      && r.value.warning.None?
      && r.value.util["rx_util"].Value? && r.value.util["rx_util"].x * row.speed.value == CounterOrZero(row.stats, "rx_bytes")
      && r.value.util["tx_util"].Value? && r.value.util["tx_util"].x * row.speed.value == CounterOrZero(row.stats, "tx_bytes")
  {
    match row.speed
    case None => Success(Utilized(row, map["rx_util" := Null, "tx_util" := Null], Some((row.port, ShortDpid(dpid)))))
    case Some(speed) =>
      var rx :- Utilization(row.stats, "rx_bytes", speed);
      var tx :- Utilization(row.stats, "tx_bytes", speed);
      Success(Utilized(row, map["rx_util" := rx, "tx_util" := tx], None))
  }

  /** PortStatsAPI._add_utilization as written. */
  function AddUtilizationAsWritten(row: PortRow, dpid: string): (r: Result<Utilized>)
    ensures row.speed.None? ==> r == AddUtilization(row, dpid)
    ensures row.speed.Some? && "rx_bytes" !in row.stats ==> r == Failure(KeyError("rx_bytes"))
    ensures r.Success? ==> r == AddUtilization(row, dpid)
  {
    match row.speed
    case None => Success(Utilized(row, map["rx_util" := Null, "tx_util" := Null], Some((row.port, ShortDpid(dpid)))))
    case Some(speed) =>
      var rx :- UtilizationAsWritten(row.stats, "rx_bytes", speed);
      var tx :- UtilizationAsWritten(row.stats, "tx_bytes", speed);
      UtilizationExtends(row.stats, "rx_bytes", speed);
      UtilizationExtends(row.stats, "tx_bytes", speed);
      Success(Utilized(row, map["rx_util" := rx, "tx_util" := tx], None))
  }

  /** The index of a port's RRD. */
  function PortIndex(dpid: string, port: nat): Key
  {
    [KStr(dpid), KInt(port)]
  }

  /** One step of PortStatsAPI._get_latest_stats: the port's latest counters
      with its details and utilisation. */
  function PortLatest(lib: Rrd.RrdTool, s: Rrd.Settings, now: int, dpid: string, iface: Interface): (r: Result<Utilized>)
    ensures r.Success? ==> (
      && r.value.row.port == iface.portNumber && r.value.row.name == iface.name
      && r.value.row.mac == iface.address && r.value.row.speed == iface.speed)
    ensures iface.speed.None? ==> r.Success? && r.value.util == map["rx_util" := Null, "tx_util" := Null]
    ensures r.Success? ==> r.value.row.stats == Rrd.FetchLatest(lib, s, Collectors.PortApp, PortIndex(dpid, iface.portNumber), now).value
    ensures r.Success? ==> r.value.util.Keys == {"rx_util", "tx_util"}
  {
    PortLatestFetch(lib, s, now, dpid, iface.portNumber);
    var stats := Rrd.FetchLatest(lib, s, Collectors.PortApp, PortIndex(dpid, iface.portNumber), now).value;
    AddUtilization(PortRow(stats, iface.portNumber, iface.name, iface.address, iface.speed), dpid)
  }

  /** A port's RRD path is always well formed, so fetch_latest answers. */
  lemma PortLatestFetch(lib: Rrd.RrdTool, s: Rrd.Settings, now: int, dpid: string, port: nat)
    ensures Rrd.GetRrd(s.dir, Collectors.PortApp, PortIndex(dpid, port)).Success?
    ensures Rrd.FetchLatest(lib, s, Collectors.PortApp, PortIndex(dpid, port), now).Success?
  {
    var index := PortIndex(dpid, port);
    assert index[..|index| - 1] == [KStr(dpid)];
  }

  /** For a port of known speed, the step succeeds exactly when the speed
      is not zero and neither byte counter the RRD reports is null; each
      utilisation then times the speed gives back its byte counter. */
  lemma PortLatestUtilization(lib: Rrd.RrdTool, s: Rrd.Settings, now: int, dpid: string, iface: Interface)
    requires iface.speed.Some?
    ensures Rrd.FetchLatest(lib, s, Collectors.PortApp, PortIndex(dpid, iface.portNumber), now).Success?
    ensures var latest := Rrd.FetchLatest(lib, s, Collectors.PortApp, PortIndex(dpid, iface.portNumber), now).value;
      var r := PortLatest(lib, s, now, dpid, iface);
      && (r.Success? <==>
            iface.speed.value != 0.0 && (forall c :: c in ["rx_bytes", "tx_bytes"] && c in latest ==> latest[c].Value?))
      && (r.Success? ==>
            && Share(r.value.util["rx_util"], iface.speed.value, CounterOrZero(latest, "rx_bytes"))
            && Share(r.value.util["tx_util"], iface.speed.value, CounterOrZero(latest, "tx_bytes")))
  {
    PortLatestFetch(lib, s, now, dpid, iface.portNumber);
    var latest := Rrd.FetchLatest(lib, s, Collectors.PortApp, PortIndex(dpid, iface.portNumber), now).value;
    var row := PortRow(latest, iface.portNumber, iface.name, iface.address, iface.speed);
    assert PortLatest(lib, s, now, dpid, iface) == AddUtilization(row, dpid);
    RowUtilization(latest, dpid, iface);
  }

  /** PortLatestUtilization for any map of counters. */
  lemma RowUtilization(stats: map<string, Cell>, dpid: string, iface: Interface)
    requires iface.speed.Some?
    ensures var r := AddUtilization(PortRow(stats, iface.portNumber, iface.name, iface.address, iface.speed), dpid);
      && (r.Success? <==>
            iface.speed.value != 0.0 && (forall c :: c in ["rx_bytes", "tx_bytes"] && c in stats ==> stats[c].Value?))
      && (r.Success? ==>
            && Share(r.value.util["rx_util"], iface.speed.value, CounterOrZero(stats, "rx_bytes"))
            && Share(r.value.util["tx_util"], iface.speed.value, CounterOrZero(stats, "tx_bytes")))
  {
  }

  /** The same step with `_add_utilization` as written. */
  function PortLatestAsWritten(lib: Rrd.RrdTool, s: Rrd.Settings, now: int, dpid: string, iface: Interface): (r: Result<Utilized>)
    ensures r.Success? ==> r == PortLatest(lib, s, now, dpid, iface)
  {
    var index := PortIndex(dpid, iface.portNumber);
    assert index[..|index| - 1] == [KStr(dpid)];
    var stats := Rrd.FetchLatest(lib, s, Collectors.PortApp, index, now).value;
    AddUtilizationAsWritten(PortRow(stats, iface.portNumber, iface.name, iface.address, iface.speed), dpid)
  }

  /** A port with a known speed whose RRD does not exist yet: fetch_latest
      answers `{}`, and the as-written utilisation then raises KeyError for
      `rx_bytes`, where the corrected one reports zero utilisation. */
  lemma PortWithoutRrd(lib: Rrd.RrdTool, s: Rrd.Settings, now: int, dpid: string, iface: Interface)
    requires !lib.present(Rrd.GetRrd(s.dir, Collectors.PortApp, PortIndex(dpid, iface.portNumber)).value)
    requires iface.speed.Some? && iface.speed.value != 0.0
    ensures PortLatestAsWritten(lib, s, now, dpid, iface) == Failure(KeyError("rx_bytes"))
    ensures PortLatest(lib, s, now, dpid, iface).Success?
    ensures PortLatest(lib, s, now, dpid, iface).value.util == map["rx_util" := Value(0.0), "tx_util" := Value(0.0)]
  {
    var index := PortIndex(dpid, iface.portNumber);
    assert index[..|index| - 1] == [KStr(dpid)];
    assert Rrd.FetchLatest(lib, s, Collectors.PortApp, index, now) == Success(map[]);
  }

  /** The interface of a (port number, interface) item. */
  function Iface(p: (nat, Interface)): Interface
  {
    p.1
  }

  /** The sort key of a (port number, interface) item. */
  function PortKey(p: (nat, Interface)): KeyPart
  {
    KInt(p.0)
  }

  function PortNumber(i: Interface): nat
  {
    i.portNumber
  }

  function UtilizedPort(u: Utilized): nat
  {
    u.row.port
  }

  /** The interfaces of a switch, `sw.interfaces[k] for k in sorted(sw.interfaces)`:
      the dictionary given as its (port number, interface) items. The
      result lists every interface of the switch once, reordered. */
  function SortedInterfaces(interfaces: seq<(nat, Interface)>): (r: seq<Interface>)
    ensures |r| == |interfaces|
    ensures multiset(r) == multiset(Project(interfaces, Iface))
  {
    var sorted := Sort(interfaces, PortKey);
    ProjectPermutation(sorted, interfaces, Iface);
    Project(sorted, Iface)
  }

  /** Every interface is filed under its own port number. */
  predicate KeyedByPort(interfaces: seq<(nat, Interface)>)
  {
    forall i :: 0 <= i < |interfaces| ==> interfaces[i].1.portNumber == interfaces[i].0
  }

  /** Sorting by key lists the interfaces by ascending port number. */
  lemma SortedInterfacesAscending(interfaces: seq<(nat, Interface)>, i: nat, j: nat)
    requires KeyedByPort(interfaces)
    requires i <= j < |interfaces|
    ensures SortedInterfaces(interfaces)[i].portNumber <= SortedInterfaces(interfaces)[j].portNumber
  {
    var sorted := Sort(interfaces, PortKey);
    SortedByPairs(sorted, PortKey, i, j);
    assert sorted[i] in multiset(interfaces) && sorted[j] in multiset(interfaces);
    ProjectAt(sorted, Iface, i);
    ProjectAt(sorted, Iface, j);
  }

  /** The rows of PortList are the switch's ports, each once. */
  lemma PortListPorts(lib: Rrd.RrdTool, s: Rrd.Settings, now: int, dpid: string,
                      interfaces: seq<(nat, Interface)>, rows: seq<Utilized>)
    requires |rows| == |interfaces|
    requires forall i :: 0 <= i < |rows| ==> PortLatest(lib, s, now, dpid, SortedInterfaces(interfaces)[i]) == Success(rows[i])
    ensures multiset(Project(rows, UtilizedPort)) == multiset(Project(Project(interfaces, Iface), PortNumber))
  {
    var sorted := SortedInterfaces(interfaces);
    forall i | 0 <= i < |rows|
      ensures Project(rows, UtilizedPort)[i] == Project(sorted, PortNumber)[i]
    {
      ProjectAt(rows, UtilizedPort, i);
      ProjectAt(sorted, PortNumber, i);
    }
    assert Project(rows, UtilizedPort) == Project(sorted, PortNumber);
    ProjectPermutation(sorted, Project(interfaces, Iface), PortNumber);
  }

  /** PortStatsAPI.get_list: every port of the switch, by port number, with
      its latest counters and utilisation; no data for an unknown switch. */
  function PortList(lib: Rrd.RrdTool, s: Rrd.Settings, now: int, dpid: string,
                    sw: Option<seq<(nat, Interface)>>): (r: Result<seq<Utilized>>)
    ensures sw.None? ==> r == Success([])
    ensures sw.Some? ==> (r.Failure? <==>
      exists i :: 0 <= i < |sw.value| && PortLatest(lib, s, now, dpid, SortedInterfaces(sw.value)[i]).Failure?)
    ensures sw.Some? && r.Success? ==>
      && |r.value| == |sw.value|
      && (forall i :: 0 <= i < |r.value| ==> PortLatest(lib, s, now, dpid, SortedInterfaces(sw.value)[i]) == Success(r.value[i]))
      && multiset(Project(r.value, UtilizedPort)) == multiset(Project(Project(sw.value, Iface), PortNumber))
    ensures sw.Some? && r.Success? && KeyedByPort(sw.value) ==>
      forall i, j :: 0 <= i <= j < |r.value| ==> r.value[i].row.port <= r.value[j].row.port
  {
    var result := GetLatest(sw, SortedInterfaces, iface => PortLatest(lib, s, now, dpid, iface));
    assert sw.Some? && result.Success? ==>
      multiset(Project(result.value, UtilizedPort)) == multiset(Project(Project(sw.value, Iface), PortNumber)) by {
      if sw.Some? && result.Success? {
        PortListPorts(lib, s, now, dpid, sw.value, result.value);
      }
    }
    assert sw.Some? && result.Success? && KeyedByPort(sw.value) ==>
      forall i, j :: 0 <= i <= j < |result.value| ==> result.value[i].row.port <= result.value[j].row.port by {
      if sw.Some? && result.Success? && KeyedByPort(sw.value) {
        forall i, j | 0 <= i <= j < |result.value|
          ensures result.value[i].row.port <= result.value[j].row.port
        {
          SortedInterfacesAscending(sw.value, i, j);
        }
      }
    }
    result
  }

  /** PortStatsAPI.get_list as written, with `_add_utilization` raising for
      a port whose RRD lacks a byte counter. Wherever it answers, it answers
      as PortList. */
  function PortListAsWritten(lib: Rrd.RrdTool, s: Rrd.Settings, now: int, dpid: string,
                             sw: Option<seq<(nat, Interface)>>): (r: Result<seq<Utilized>>)
    ensures sw.None? ==> r == Success([])
    ensures sw.Some? ==> (r.Failure? <==>
      exists i :: 0 <= i < |sw.value| && PortLatestAsWritten(lib, s, now, dpid, SortedInterfaces(sw.value)[i]).Failure?)
    ensures r.Success? ==> r == PortList(lib, s, now, dpid, sw)
  {
    var result := GetLatest(sw, SortedInterfaces, iface => PortLatestAsWritten(lib, s, now, dpid, iface));
    assert result.Success? ==> result == PortList(lib, s, now, dpid, sw) by {
      if result.Success? && sw.Some? {
        var items := SortedInterfaces(sw.value);
        var corrected := PortList(lib, s, now, dpid, sw);
        assert forall i :: 0 <= i < |items| ==> PortLatest(lib, s, now, dpid, items[i]) == Success(result.value[i]);
        assert corrected.Success?;
        assert corrected.value == result.value;
      }
    }
    result
  }

  /** A switch whose one port has a known, non-zero speed and no RRD yet:
      get_list as written raises KeyError('rx_bytes'), where the corrected
      list answers that port with zero utilisation. */
  lemma PortListWithoutRrd(lib: Rrd.RrdTool, s: Rrd.Settings, now: int, dpid: string, iface: Interface)
    requires !lib.present(Rrd.GetRrd(s.dir, Collectors.PortApp, PortIndex(dpid, iface.portNumber)).value)
    requires iface.speed.Some? && iface.speed.value != 0.0
    ensures PortListAsWritten(lib, s, now, dpid, Some([(iface.portNumber, iface)])) == Failure(KeyError("rx_bytes"))
    ensures var r := PortList(lib, s, now, dpid, Some([(iface.portNumber, iface)]));
      r.Success? && |r.value| == 1 && r.value[0].util == map["rx_util" := Value(0.0), "tx_util" := Value(0.0)]
  {
    var items := [(iface.portNumber, iface)];
    PortWithoutRrd(lib, s, now, dpid, iface);
    assert SortedInterfaces(items) == [iface] by {
      var sorted := Sort(items, PortKey);
      assert multiset(sorted) == multiset(items);
      assert |sorted| == 1 && sorted[0] in multiset(items);
      ProjectAt(sorted, Iface, 0);
    }
    var stat := (i: Interface) => PortLatestAsWritten(lib, s, now, dpid, i);
    assert MapResult([iface], stat) == Failure(KeyError("rx_bytes"));
  }

  // -------------------------------------------------------------- flows

  /** A flow of a switch: its id and the other fields of `flow.as_dict()`. */
  datatype Flow = Flow(id: string, fields: map<string, string>)

  /** The `stats` entry added to a flow: bytes and packets per second. */
  datatype FlowRates = FlowRates(bps: Cell, pps: Cell)

  datatype FlowEntry = FlowEntry(flow: Flow, stats: FlowRates)

  /** `d.get(k, 0)`. */
  function GetOrZero(d: map<string, Cell>, k: string): (c: Cell)
    ensures k in d ==> c == d[k]
    ensures k !in d ==> c == Value(0.0)
  {
    if k in d then d[k] else Value(0.0)
  }

  /** One step of FlowStatsAPI._get_latest_stats: the flow with its latest
      rates, zero when the flow has no RRD yet. */
  function FlowLatest(lib: Rrd.RrdTool, s: Rrd.Settings, now: int, dpid: string, flow: Flow): (r: Result<FlowEntry>)
    ensures r.Success? && r.value.flow == flow
    ensures !lib.present(Rrd.GetRrd(s.dir, Collectors.FlowApp, [KStr(dpid), KStr(flow.id)]).value) ==>
      r.value.stats == FlowRates(Value(0.0), Value(0.0))
    ensures var latest := Rrd.FetchLatest(lib, s, Collectors.FlowApp, [KStr(dpid), KStr(flow.id)], now).value;
      && ("byte_count" in latest ==> r.value.stats.bps == latest["byte_count"])
      && ("packet_count" in latest ==> r.value.stats.pps == latest["packet_count"])
      && ("byte_count" !in latest ==> r.value.stats.bps == Value(0.0))
      && ("packet_count" !in latest ==> r.value.stats.pps == Value(0.0))
  {
    var index := [KStr(dpid), KStr(flow.id)];
    assert index[..|index| - 1] == [KStr(dpid)];
    var data := Rrd.FetchLatest(lib, s, Collectors.FlowApp, index, now).value;
    Success(FlowEntry(flow, FlowRates(GetOrZero(data, "byte_count"), GetOrZero(data, "packet_count"))))
  }

  /** The flows of a switch, `sorted(sw.flows, key=lambda f: f.id)`. */
  function SortedFlows(flows: seq<Flow>): (r: seq<Flow>)
    ensures multiset(r) == multiset(flows)
    ensures forall i :: 0 <= i < |r| - 1 ==> StrLe(r[i].id, r[i + 1].id)
  {
    Sort(flows, (f: Flow) => KStr(f.id))
  }

  /** Entries made one per flow, in order, carry the flows in that order. */
  lemma EntriesCarryFlows(entries: seq<FlowEntry>, flows: seq<Flow>, stat: Flow -> Result<FlowEntry>)
    requires |entries| == |flows|
    requires forall f :: stat(f).Success? ==> stat(f).value.flow == f
    requires forall i :: 0 <= i < |entries| ==> stat(flows[i]) == Success(entries[i])
    ensures seq(|entries|, i requires 0 <= i < |entries| => entries[i].flow) == flows
  {
  }

  /** FlowStatsAPI.get_list: every flow of the switch, sorted by id, with its
      latest rates; no data for an unknown switch. */
  function FlowList(lib: Rrd.RrdTool, s: Rrd.Settings, now: int, dpid: string,
                    sw: Option<seq<Flow>>): (r: Result<seq<FlowEntry>>)
    ensures sw.None? ==> r == Success([])
    ensures sw.Some? ==> r.Success? && |r.value| == |sw.value|
    ensures sw.Some? ==> multiset(seq(|r.value|, i requires 0 <= i < |r.value| => r.value[i].flow)) == multiset(sw.value)
    ensures sw.Some? ==> forall i :: 0 <= i < |r.value| - 1 ==> StrLe(r.value[i].flow.id, r.value[i + 1].flow.id)
  {
    var stat := f => FlowLatest(lib, s, now, dpid, f);
    var result := GetLatest(sw, SortedFlows, stat);
    if sw.None? then result
    else
      assert result.Success?;
      EntriesCarryFlows(result.value, SortedFlows(sw.value), stat);
      result
  }
}
