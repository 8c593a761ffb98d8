# of_stats, modelled in Dafny

of_stats is a statistics application for the Kytos SDN controller. On a
timer it sends OpenFlow port-stats and flow-stats requests to every connected
OpenFlow 1.0 switch. It writes the counters of each reply into one
round-robin database (RRD) file per port or per flow. It serves the stored
series over a REST API.

This project models the logic around the `rrdtool` library and the REST layer:

- `Rrd` (class RRD in stats.py):
  - where an RRD file lives;
  - the update row string, and the `create` options with their data-source
    and archive specifications;
  - how `fetch` normalises `start`/`end`, chooses a resolution and rebuilds
    the timestamps;
  - how `fetch_latest` selects the latest row.

  `rrdtool.fetch`, `rrdtool.first` and the file-existence test are
  function-valued parameters bundled in `Rrd.RrdTool`. They may behave in
  any way, except that every fetch reply is assumed well formed
  (`Rrd.Reply`; see "Left out"). The `settings` constants
  (`DIR`, `STATS_INTERVAL`, `XFF`, `PERIOD`, `TIMEOUT`, `MIN`, `MAX`) are the
  parameter `Rrd.Settings`. The current time is the parameter `now`.
- `Collectors` (PortStats and FlowStats in stats.py):
  - the versioned request each collector sends;
  - the data sources of its RRD;
  - the RRD rows and controller updates a reply produces.
- `StatsTable` (`StatsAPI._fetch` and `StatsAPI._remove_null`):
  - the rows turned into one list per data source;
  - the rows in which every data source is null removed.

  Null removal is written twice: once as a function over the whole table,
  and once as a method that follows the source's backward loop. The method
  is proved equal to the function.
- `Api` (stats_api.py):
  - the points answer and its 404 document;
  - the latest-stats lists of ports and flows, with utilisation and the
    zero defaults.
- `Dispatch` (main.py):
  - the registry of collectors;
  - which switches are polled on every tick;
  - how a stats reply is routed to a collector.
- `Base`, `Text`, `Sorting`: shared pieces.
  - `Base`: results that carry the Python exception a call raises.
  - `Text`: Python's `join`, `split` and `str(int)`, each with its inverse.
  - `Sorting`: `sorted` by a key.

Python exceptions are values of `Base.Error` returned in a `Base.Result`:
`KeyError`, `TypeError`, `IndexError`, `ZeroDivisionError` and
`AttributeError`. The `FileNotFoundError` that `RRD.fetch` raises on purpose
is `NotFound`. A Python `None` cell is `Base.Cell.Null`.

## Model

| member | source | states |
|---|---|---|
| Rrd.GetRrd | stats.py:104-109 | an empty index raises IndexError; the path exists exactly when every component but the last is a string, and otherwise pathlib's join raises TypeError |
| Rrd.GetRrdComponents | stats.py:104-109 | read back along '/', the path is DIR, the app folder, each index component but the last in order as a folder, and the last component with `.rrd` appended |
| Rrd.GetRrdInjective | stats.py:104-109 | two indexes share an RRD file only if they have as many components and each component prints the same |
| Rrd.FirstMissing | stats.py:84 | the first declared data source without a value, exactly when some declared source lacks one |
| Rrd.UpdateLine | stats.py:81-86 | the row string exists exactly when every declared data source has a value; otherwise a KeyError names a missing source |
| Rrd.Rendered | stats.py:84 | one decimal field per declared data source, in declaration order, each reading back as that source's value |
| Rrd.TstampTextRoundTrip | stats.py:81-82 | the timestamp field (`N` when omitted) contains no ':' and reads back as the timestamp given |
| Rrd.UpdateLineFields | stats.py:84-86 | split at ':', the row string is the timestamp field followed by the value fields |
| Rrd.UpdateLineRoundTrip | stats.py:81-86 | parsed as rrdtool reads it, the row string gives back the timestamp and exactly the declared sources' values in declaration order |
| Rrd.DataSourceSpecFields | stats.py:140-143 | a data-source spec splits into `DS`, the name, `COUNTER`, TIMEOUT, MIN and MAX |
| Rrd.ArchiveSpecFields | stats.py:253-254 | an archive spec splits into `RRA`, `AVERAGE`, XFF, the step and PERIOD |
| Rrd.ArchiveStepsAsWrittenFlaw | stats.py:251-252 | the tuple as written has 16 items; `'4h' '8h'` fuse into `4h8h`, and the list has no `4h` or `8h` item |
| Rrd.ArchiveStepsIntended | stats.py:251-252 | the corrected 17 steps are all valid tokens and strictly increasing, from 1 minute to 15 days |
| Rrd.ArchivesFrom | stats.py:249-256 | one archive spec per step, in the order of the steps; when neither the settings nor the step contain ':', each splits into `RRA`, `AVERAGE`, XFF, that step and PERIOD |
| Rrd.CreateOptionsFromDeclare | stats.py:140-150 | for any step list, a new RRD is created at its path with start `N` and step STATS_INTERVAL, one COUNTER per data source in order, then one AVERAGE archive per step in order |
| Rrd.CreateOptionsAsWrittenDeclare | stats.py:145-150 | as written, create_rrd passes the 16 archives of stats.py:251-254; the ninth has the step `4h8h`, every archive's step is the as-written tuple's item, and none has step `4h` or `8h` |
| Rrd.CreateOptionsDeclare | stats.py:145-150 | with the corrected 17 steps, a new RRD is created at its path with one COUNTER per data source in order, followed by one AVERAGE archive per corrected step |
| Rrd.Update | stats.py:70-86 | path errors come first and issue nothing; otherwise exactly one create when the RRD is missing, then exactly one row write at the RRD's path, made exactly when no value is missing and carrying the values in declaration order; a missing value raises KeyError naming the first declared source without one |
| Rrd.CalcStartEnd | stats.py:203-221 | end defaults to now; a missing start is `end - n_points*STATS_INTERVAL`, which raises TypeError exactly when n_points is None or end is a str; `first` asks rrdtool; each int bound is decremented by one and strings pass through |
| Rrd.CalcStartEndWindow | stats.py:207-221 | with int bounds, the window asked of rrdtool ends one second before end; without a start it spans n_points intervals, and with one it keeps the caller's length |
| Rrd.FloorDiv | stats.py:191 | Python's `//`: the quotient rounded toward minus infinity, for either sign of the divisor |
| Rrd.Resolution | stats.py:188-193 | a resolution is requested only when n_points is given, both bounds are ints and the quotient is positive; n_points 0 with int bounds divides by zero |
| Rrd.ResolutionCoarsestFitting | stats.py:188-193 | for positive n_points, a resolution is requested exactly when the window spans at least n_points seconds, and it is the largest step that fits n_points times into the window |
| Rrd.PyRange | stats.py:201 | Python's `range` with a positive step: lo, lo+step, ..., every element below hi, and none is left out |
| Rrd.PyRangeLength | stats.py:199-201 | `range(start+step, start+n*step+1, step)` has exactly n elements, one per fetched row |
| Rrd.TimestampRange | stats.py:199-201 | one timestamp per row: the i-th is start + (i+1)*step, each after start and at most stop |
| Rrd.TimestampRangeExact | stats.py:199-201 | a time is returned exactly when it lies after start, at or before stop, and a whole number of steps after start |
| Rrd.Fetch | stats.py:178-201 | with rrdtool assumed never to raise: a path error or a missing RRD fails before any bound is computed or rrdtool is called; for a present RRD, a bound error or a zero n_points fails with that error, and otherwise the result is rrdtool's reply, to the call with the normalised bounds and the chosen resolution, with the rebuilt timestamps |
| Rrd.FetchIntWindow | stats.py:185-198 | with int bounds and n_points fitting into the window, rrdtool is asked for `AVERAGE` from start-1 to end-1 with `-a -r` the window over n_points, in seconds |
| Rrd.FloorDivOfMultiple | stats.py:191 | `(n*i) // n == i` for a positive n |
| Rrd.FetchDefaultWindow | stats.py:185-221 | with neither bound, rrdtool is asked for the last n_points intervals before now, at a resolution of one STATS_INTERVAL |
| Rrd.FirstQualifyingFrom | stats.py:238-240 | the earliest row at or after k whose first value is not null and whose time is after the minimum, and only such a row |
| Rrd.LatestScan | stats.py:235-240 | walking the rows backwards and keeping the last match yields the earliest qualifying row in time; nothing is found exactly when no row qualifies |
| Rrd.ZipMap | stats.py:244 | the dict of `zip(cols, row)`: its keys are exactly the names, and with distinct names each maps to its own value |
| Rrd.FetchLatestCall | stats.py:228-230 | fetch_latest asks rrdtool for the last three intervals up to `now`, with no resolution, and gets the reply unchanged |
| Rrd.LatestMap | stats.py:235-244 | keys exactly the data sources; zeros when no row qualifies, otherwise the earliest qualifying row |
| Rrd.FetchLatest | stats.py:223-244 | `{}` when the RRD is missing; otherwise a map over exactly the data sources, with zeros or the earliest row whose first value is set and whose time is after now - 2*STATS_INTERVAL |
| Collectors.VersionedRequest | stats.py:271-279 | a StatsRequest for protocol 0x01 and a MultipartRequest for any other version; its type tag is the collector's, and a v0x01 port request asks for all ports |
| Collectors.RequestOn | stats.py:265-269 | the versioned request for the connection's protocol, addressed to that connection |
| Collectors.PortDataSources | stats.py:262-263 | the port data sources are rx_bytes, tx_bytes, rx_dropped, tx_dropped, rx_errors, tx_errors, in that order |
| Collectors.ListenPorts | stats.py:281-310 | one RRD row per reply item, in order, indexed (switch id, port number); it holds all six counters, and the interface is mirrored exactly when the switch has one for that port |
| Collectors.ListenFlows | stats.py:365-380 | one RRD row per flow, in order, indexed (switch id, flow id); it holds the packet and byte counts, and the controller's flow is updated exactly when it exists |
| Collectors.ListenPortsUpdates | stats.py:288-296 | every row PortStats.listen writes is accepted by RRD.update and carries the six counters in declaration order |
| Collectors.ListenFlowsUpdates | stats.py:377-380 | every row FlowStats.listen writes is accepted by RRD.update and carries the packet and byte counts in declaration order |
| StatsTable.FetchTable | stats_api.py:50-56 | the lists are aligned, the timestamps are the fetched ones and the names are the fetched data sources |
| StatsTable.FetchTableRows | stats_api.py:50-56 | reading the lists back across gives every fetched row beside its timestamp, in order |
| StatsTable.Filter | stats_api.py:72-83 | keeping the flagged elements leaves as many elements as there are flags set |
| StatsTable.FilterAt | stats_api.py:72-83 | the k-th kept element is the element at the k-th set flag |
| StatsTable.RemoveNull | stats_api.py:66-83 | after null removal the lists stay aligned, the names are unchanged and no list grows |
| StatsTable.KeepRowsFilter | stats_api.py:66-83 | the row-wise reference definition of null removal is filtering by "some data source has a value" |
| StatsTable.RemoveNullRows | stats_api.py:66-83 | removing null rows list by list removes exactly the rows in which every data source is null; the survivors stay in order with each timestamp beside its values |
| StatsTable.RemoveNullHasValue | stats_api.py:66-83 | every row left has a value in some data source |
| StatsTable.RemoveNullIdempotent | stats_api.py:66-83 | a second null removal changes nothing |
| StatsTable.ScanRow | stats_api.py:74-78 | the inner loop ends on a null exactly when every data source of the row is null |
| StatsTable.VisitStep | stats_api.py:72-83 | visiting row i keeps a kept row where it is and pops a removed one, so the unvisited prefix is unchanged and the visited suffix is filtered |
| StatsTable.MaskAt | stats_api.py:74-80 | a row is kept exactly when some list, as it stands during the loop, has a value there |
| StatsTable.RemoveNullInPlace | stats_api.py:66-83 | the source's backward loop of pops gives exactly the table of the null-removal function |
| StatsTable.FetchData | stats_api.py:50-58 | the names are the data sources; timestamps and every list are the fetched ones filtered by "the row has a value"; every remaining row has a value |
| Dispatch.LookupIn | main.py:65-66 | a tag is found exactly when some registry entry has it, and it is found with that entry's collector |
| Dispatch.RegistryClosed | main.py:20-21 | exactly the port-stats and flow-stats tags have a collector, each under its own tag; aggregate stats has none |
| Dispatch.RequestReplyRoundTrip | main.py:20-21 | the reply to a collector's request, in either protocol version, is routed back to that collector |
| Dispatch.UpdateStats | main.py:38-41 | nothing without a connection; otherwise one request per registered collector, in registry order, each with its tag and on the switch's connection |
| Dispatch.Execute | main.py:25-32 | every request sent in a tick is a v0x01 stats request on an established OpenFlow 1.0 connection |
| Dispatch.ExecuteConcat | main.py:27-32 | switches are polled one by one: a tick over two lists is the tick over the first, then the tick over the second |
| Dispatch.ExecuteSingle | main.py:28-32 | a switch that is not polled gets nothing; a polled one gets the port request, then the flow request |
| Dispatch.ExecuteOne | main.py:27-32 | a switch that is not polled is skipped without changing what the others receive |
| Dispatch.Listen | main.py:57-68 | a reply reaches a collector exactly when its tag is registered, and then it reaches that tag's collector with the source switch and the body |
| Dispatch.ListenV0x01 | main.py:43-48 | a v0x01 reply is routed by its body_type: listened to exactly for the port and flow types |
| Dispatch.ListenV0x04 | main.py:50-55 | the corrected listener: a v0x04 reply is routed by its multipart_type: listened to exactly for the port and flow types |
| Dispatch.ListenDialectsAgree | main.py:43-68 | in the corrected listener, a v0x01 and a v0x04 reply with the same tag and body are routed alike: port to PortStats, flow to FlowStats, others to nobody |
| Dispatch.ListenAsWritten | main.py:57-71 | as written, an unregistered v0x04 reply raises AttributeError on `body_type`; a v0x01 reply, and any reply with a registered tag, is routed as by the corrected listener (an unregistered v0x01 reply goes to nobody) |
| Dispatch.ListenAsWrittenFlaw | main.py:69-71 | an aggregate multipart reply makes the as-written listener raise, where the corrected one ignores it |
| Sorting.StrLeTotal | stats_api.py:257-258 | any two flow ids are comparable |
| Sorting.StrLeTrans | stats_api.py:257-258 | the order on flow ids is transitive |
| Sorting.Insert | stats_api.py:160-161 | inserting into a sorted list keeps it sorted and adds exactly the element |
| Sorting.Sort | stats_api.py:160-161 | `sorted` returns the same elements, as a permutation, in key order |
| Sorting.SortedByPairs | stats_api.py:160-161 | a sorted list is ordered between any two positions, not only between neighbours |
| Api.NotFoundDoc | stats_api.py:93-98 | the error document has status 404, title "Database not found." and the not-found message as detail |
| Api.GetPoints | stats_api.py:23-34 | with rrdtool assumed never to raise: a missing RRD gives the 404 document instead of an exception; any other error of RRD.fetch propagates unchanged; a successful fetch is answered with its table after null removal |
| Api.GetPointsNotFound | stats_api.py:23-29 | the 404 document is answered exactly when the RRD file does not exist |
| Api.PortStatsDefaultWindow | stats_api.py:23-34 | a port's stats (stats_api.py:174-177) without start or end are the last 30 intervals before now, fetched at one STATS_INTERVAL per point, with null rows removed |
| Api.GetPortStats | stats_api.py:174-177 | a port without an RRD gives the 404 document; with rrdtool assumed never to raise, the call raises exactly when the RRD exists, `start` is absent and `end` is given, and the exception is TypeError |
| Api.NonExistentPortDetail | stats.py:180-181 | the not-found message shows a port's index as a Python tuple, `('non-existent-switch', 123)`: the dpid quoted, the port number bare |
| Api.NonExistentPort | test_port.py:13-19 | asking for the stats of a port that has no RRD answers the 404 document, never an exception, whatever the query parameters |
| Api.MapResult | stats_api.py:43 | the items' stats in order, or else the exception of the first item that raises |
| Api.GetLatest | stats_api.py:36-44 | `data = []` for a switch the controller does not know; otherwise one entry per item, in the items' order |
| Api.ShortDpid | stats_api.py:204-208 | dpids of 22 characters or more are logged as their first three characters, `...` and their last three; shorter ones are unchanged |
| Api.ShortDpidIdempotent | stats_api.py:204-208 | shortening a shortened dpid changes nothing |
| Api.UtilizationAsWritten | stats_api.py:211-212 | as written: a missing counter raises KeyError, a null one TypeError and a zero speed ZeroDivisionError; a result times the speed gives the counter |
| Api.Utilization | stats_api.py:211-212 | with a missing counter read as zero, only a null counter or a zero speed raise; the result times the speed gives the counter |
| Api.UtilizationExtends | stats_api.py:211-212 | the corrected utilisation agrees with the as-written one wherever the latter succeeds |
| Api.AddUtilization | stats_api.py:198-213 | the corrected `_add_utilization`, reading a missing counter as zero: an unknown speed sets both utilisations to None and warns with the port and the shortened dpid; a known speed gives each utilisation as its counter over the speed; the row is otherwise unchanged |
| Api.AddUtilizationAsWritten | stats_api.py:198-213 | as written, a known speed with no `rx_bytes` in the row raises KeyError; whenever it succeeds it agrees with the corrected version |
| Api.PortLatestFetch | stats_api.py:166-168 | a port's index always names an RRD path, so fetch_latest answers for it |
| Api.PortLatest | stats_api.py:163-172 | the corrected step: each port row carries the counters fetch_latest returns for (dpid, port), and the interface's number, name, MAC and speed; the utilisation keys are rx_util and tx_util; an unknown speed gives null utilisations |
| Api.PortLatestUtilization | stats_api.py:163-212 | in the corrected step, for a known speed, the row succeeds exactly when the speed is not zero and no byte counter fetched is null; each utilisation times the speed is then its fetched byte counter (0 when absent) |
| Api.RowUtilization | stats_api.py:209-212 | the same for a row of any counters |
| Api.PortLatestAsWritten | stats_api.py:163-172 | whenever the as-written step succeeds, it agrees with the corrected one |
| Api.PortWithoutRrd | stats.py:229-233 | a port with a known speed and no RRD makes the as-written step raise KeyError('rx_bytes'), where the corrected one reports zero utilisation |
| Api.PortListAsWritten | stats_api.py:158-172 | get_list as written: no data for an unknown switch; it fails exactly when some port's as-written row fails, and whenever it answers, it answers as the corrected list |
| Api.PortListWithoutRrd | stats_api.py:209-212 | a switch with one port of known non-zero speed and no RRD: get_list as written raises KeyError('rx_bytes'), where the corrected list answers with zero utilisation |
| Sorting.ProjectPermutation | stats_api.py:160-161 | taking the value of each item of two reorderings of one list gives two reorderings of one list |
| Api.SortedInterfaces | stats_api.py:160-161 | the switch's interfaces, each once: a reordering of the values of its interface dict |
| Api.SortedInterfacesAscending | stats_api.py:160-161 | the interfaces are listed by ascending port number |
| Api.PortListPorts | stats_api.py:158-172 | rows built one per sorted interface carry exactly the switch's port numbers, each once |
| Api.PortList | stats_api.py:158-172 | the corrected list: no data for an unknown switch; otherwise the i-th row is PortLatest of the i-th sorted interface, the rows carry exactly the switch's port numbers, in ascending order, and the list fails exactly when some port's row fails |
| Api.FlowLatest | stats_api.py:260-271 | each entry carries its flow; Bps and pps are 0 when the flow has no RRD, the fetched byte and packet counts when they are there, and 0 for a count the fetched map lacks |
| Api.SortedFlows | stats_api.py:257-258 | the switch's flows, as a permutation, sorted by id |
| Api.EntriesCarryFlows | stats_api.py:260-271 | entries built one per flow, in order, carry those flows in that order |
| Api.FlowList | stats_api.py:255-271 | no data for an unknown switch; otherwise never an error, one entry per flow, exactly the switch's flows, in id order |
| Text.SplitJoin | stats.py:84-86 | `sep.join` is undone by `split(sep)` when no part contains the separator |
| Text.NatToString | stats.py:84 | `str(n)`: non-empty decimal digits with no leading zero |
| Text.ParseNatToString | stats.py:84 | `str(n)` reads back as n |
| Text.NatToStringInjective | stats.py:108 | distinct port numbers print differently, so they name different files |
| Text.IntToString | stats.py:195 | `str(i)`: a minus sign exactly for negative numbers |
| Text.ParseIntToString | stats.py:195 | `str(i)` reads back as i, for bounds of either sign |

## Left out

- rrdtool itself is not modelled: the circular archives, COUNTER rate derivation, AVERAGE consolidation and the actual row contents. `rrdtool.fetch` and `rrdtool.first` are function-valued parameters. `rrdtool.create` and `rrdtool.update` become the commands in `Rrd.Update`'s outcome.
- Rrd.Reply: every fetch reply is assumed well formed, and this is not derived. The step is positive. There is at least one data source, and the names are distinct. `stop == start + |rows| * step`. Every row has one value per data source. A reply breaking these is outside the model.
- rrdtool.create, update, fetch and first are assumed never to raise. rrdtool's OperationalError is not modelled, for example on an unparsable `start`/`end` string passed through to fetch, or on a second update within the same second.
- Rrd.Fetch: its "otherwise the result is rrdtool's reply" holds only under the assumption that rrdtool.fetch never raises.
- Api.GetPoints: errors raised by rrdtool itself are not among the errors it propagates, because rrdtool is assumed never to raise.
- Api.PortLatest: uses the corrected `Api.AddUtilization`, so a port of known speed whose RRD lacks a byte counter answers zero utilisation, where the source raises KeyError. The as-written step is `Api.PortLatestAsWritten`.
- Api.PortLatestUtilization: states the corrected step's success condition. As written, an absent byte counter also raises KeyError (`Api.UtilizationAsWritten`).
- Api.PortList: is the corrected `get_list`, built on `Api.PortLatest`. The as-written list is `Api.PortListAsWritten`, and `Api.PortListWithoutRrd` shows where the two differ.
- Dispatch.ListenDialectsAgree: is about the corrected listener (`Dispatch.ListenV0x04`). As written, an unregistered v0x04 reply raises AttributeError (`Dispatch.ListenAsWritten`).
- Rrd.Update: issues the `create` command with the corrected 17 archives (`Rrd.CreateOptions`), not the 16 the source passes. The as-written options are `Rrd.CreateOptionsAsWritten`, described by `Rrd.CreateOptionsAsWrittenDeclare`.
- Rrd.CreateOptionsDeclare: describes the corrected 17-archive options, not what the source passes. The source's 16 archives, one with step `4h8h`, are stated by `Rrd.CreateOptionsAsWrittenDeclare`. How rrdtool reads the step `4h8h` is not modelled.
- The filesystem is not modelled. `Path.exists` is the function-valued parameter `RrdTool.present`. `mkdir` of the parent folders (stats.py:125-128) has no counterpart. `get_or_create_rrd` is modelled by the `Create` command that `Rrd.Update` issues for a missing RRD.
- `settings.rrd_lock` and all concurrency are left out: the model is sequential.
- `KytosEvent` and the msg_out buffer are left out: a sent request is the value `Collectors.Sent`.
- Flask `Response`, `json.dumps`, `request.args` and the REST routes of main.py:75-105 are left out. The answers are the values `Api.Doc`, and the query parameters are arguments.
- Logging is left out. The one exception is `_add_utilization`'s warning, kept because its dpid shortening is specified.
- `time.time()` is the parameter `now`.
- pyof message construction and the wire format are left out: requests and replies are tagged variants.
- `FlowFactory`, `from_of_flow_stats` and flow hashing are left out: a flow item arrives with its id.
- `UserSpeed`, `_get_speed` and the `speed` key that `PortStatsAPI._get_points_data` adds (stats_api.py:179-196) are left out: they read a user file through the controller. An interface's speed is an input.
- Float division is modelled on reals, so rounding is not modelled.
- `get_random_port_stats` is left out: it is random test data.
- `AggregateStats` is left out: it is not registered, and its `listen` uses an `rrd` attribute that is None (stats.py:316, 335).
- Path normalisation by pathlib is left out: the path is the components joined by '/'.
- Python's `repr` escaping of quotes inside a string index component is left out.
- `switch.is_connected()` is modelled as "has a connection in the established state".
- A data source named `timestamps` would share a list with the timestamps in `StatsAPI._fetch`. The model keeps them apart, and no collector declares such a source.
- StatsTable.RemoveNullInPlace: requires a data source whenever there are rows. With rows and no data source, the source's loop reads the unbound loop variable `col`, a NameError that is not modelled.
- StatsTable.FetchTable: requires distinct, non-empty data-source names (`Fetched.Shaped`). This is what rrdtool guarantees of an RRD, stated here rather than derived.
- Rrd.LatestScan: requires one timestamp per row and non-empty rows, which RRD.fetch's reply always has. Python's `zip` would silently truncate on unequal lengths.
- Sorting.Sort: is stable like Python's `sorted`, but the contract does not state stability. Interface keys are unique dict keys, so only equal flow ids could observe it.
- Api.GetPortStats: models the points path of the base class. The port override of `_get_points_data` (stats_api.py:179-185) then looks up the switch and its speed. It raises AttributeError for a switch the controller does not know. That lookup is not modelled, so the contract's "fails exactly when" covers the fetch path only. It also leaves out rrdtool's own OperationalError, for example for `?start=garbage`.

## Findings

| source | as written | input that shows it | evidently intended | confidence | as-written member | corrected member |
|---|---|---|---|---|---|---|
| stats.py:251-252 | `'4h'` and `'8h'` have no comma between them, so Python concatenates them into `'4h8h'` and the RRD gets 16 archives | any RRD creation: the archive list has 16 items, one with step `4h8h` | 17 archives with steps 4h and 8h | not executed; high (the comment promises one archive per period) | Rrd.ArchiveStepsAsWrittenFlaw, Rrd.CreateOptionsAsWrittenDeclare | Rrd.ArchiveStepsIntended, Rrd.CreateOptionsDeclare |
| stats_api.py:211-212 | `row[bytes_col] / speed` assumes the row has `rx_bytes`, but `fetch_latest` returns `{}` for a port without an RRD (stats.py:231-233) | a port with a known speed whose RRD does not exist yet: the port list raises KeyError('rx_bytes') | zero utilisation for a port without data, as the `{}` comment ("it will return zero values") says | not executed; medium | Api.PortWithoutRrd, Api.PortListWithoutRrd | Api.AddUtilization, Api.PortList |
| main.py:69-71 | the debug message of an unrouted reply reads `msg.body_type`, which a v0x04 MultipartReply lacks | a v0x04 multipart reply of an unregistered type (e.g. aggregate, 2): AttributeError | log the tag (`stats_type`) and ignore the reply, as for v0x01 | not executed; medium | Dispatch.ListenAsWrittenFlaw | Dispatch.ListenV0x04 |
