/** The round-robin database wrapper of the statistics application (class RRD
    in stats.py): where an RRD file lives, the strings handed to rrdtool to
    create, update and fetch it, and how a fetch reply is turned into
    timestamps and a "latest value" row.

    rrdtool itself and the filesystem are not modelled: `RrdTool` bundles
    them as function-valued parameters that every operation receives,
    together with the `settings` constants and the current time. */
module Rrd {
  import opened Base
  import opened Text

  /** The `settings` constants the wrapper reads. The ones that are only ever
      formatted into rrdtool arguments are kept as their `str()` text. */
  datatype Settings = Settings(
    dir: string,          // settings.DIR
    statsInterval: nat,   // settings.STATS_INTERVAL, in seconds
    xff: string,          // settings.XFF
    period: string,       // settings.PERIOD
    timeout: string,      // settings.TIMEOUT
    minValue: string,     // settings.MIN
    maxValue: string)     // settings.MAX

  /** A reply of rrdtool.fetch: `(start, stop, step), cols, rows`. */
  datatype RawReply = RawReply(start: int, stop: int, step: int, cols: seq<string>, rows: seq<seq<Cell>>)
  {
    /** What rrdtool guarantees of a fetch reply: a positive step, at least
        one data source (an RRD cannot be created without one), distinct
        data-source names, one row per step between start and stop, and one
        value per data source in every row. */
    predicate WellFormed()
    {
      && step > 0
      && |cols| > 0
      && (forall i, j :: 0 <= i < j < |cols| ==> cols[i] != cols[j])
      && stop == start + |rows| * step
      && (forall i :: 0 <= i < |rows| ==> |rows[i]| == |cols|)
    }
  }

  type Reply = r: RawReply | r.WellFormed() witness RawReply(0, 0, 1, ["value"], [])

  /** The foreign calls of the wrapper, as function-valued parameters. Any
      behaviour is allowed, except that every fetch reply is assumed to be
      well formed (Reply). */
  datatype RrdTool = RrdTool(
    present: string -> bool,      // Path(rrd).exists()
    first: string -> int,         // rrdtool.first(rrd)
    fetch: seq<string> -> Reply)  // rrdtool.fetch(*args)

  // ---------------------------------------------------------------- paths

  function PartText(p: KeyPart): string
  {
    match p
    case KStr(s) => s
    case KInt(n) => NatToString(n)
  }

  /** Every component is a string (pathlib refuses `path / int`). */
  predicate AllStrings(parts: Key)
  {
    forall i :: 0 <= i < |parts| ==> parts[i].KStr?
  }

  function PathComponents(dir: string, app: string, index: Key): seq<string>
    requires |index| > 0
  {
    [dir, app]
    + seq(|index| - 1, i requires 0 <= i < |index| - 1 => PartText(index[i]))
    + [PartText(index[|index| - 1]) + ".rrd"]
  }

  /** RRD.get_rrd: `DIR/app/k0/.../k(n-2)/k(n-1).rrd`. An empty index has no
      last component (IndexError); a folder that is an int cannot be joined
      to a path (TypeError). */
  function GetRrd(dir: string, app: string, index: Key): (r: Result<string>)
    ensures |index| == 0 ==> r == Failure(IndexError)
    ensures |index| > 0 ==> (r.Success? <==> AllStrings(index[..|index| - 1]))
    ensures |index| > 0 && !AllStrings(index[..|index| - 1]) ==> r == Failure(TypeError)
  {
    if |index| == 0 then Failure(IndexError)
    else if !AllStrings(index[..|index| - 1]) then Failure(TypeError)
    else Success(Join(PathComponents(dir, app, index), '/'))
  }

  predicate SlashFree(dir: string, app: string, index: Key)
  {
    && '/' !in dir
    && '/' !in app
    && forall i :: 0 <= i < |index| ==> '/' !in PartText(index[i])
  }

  /** Read back along '/', the path is DIR, the app folder, one folder per
      index component but the last, in order, and the last component with
      the `.rrd` suffix. */
  lemma GetRrdComponents(dir: string, app: string, index: Key)
    requires GetRrd(dir, app, index).Success?
    requires SlashFree(dir, app, index)
    ensures var parts := Split(GetRrd(dir, app, index).value, '/');
      && |parts| == |index| + 2
      && parts[0] == dir
      && parts[1] == app
      && (forall i :: 0 <= i < |index| - 1 ==> parts[i + 2] == PartText(index[i]))
      && parts[|index| + 1] == PartText(index[|index| - 1]) + ".rrd"
  {
    var comps := PathComponents(dir, app, index);
    assert '/' !in ".rrd";
    assert '/' !in PartText(index[|index| - 1]) + ".rrd";
    assert NoSep(comps, '/');
    SplitJoin(comps, '/');
  }

  /** Two slash-free indexes share an RRD file only if they have the same
      number of components and each component prints the same. */
  lemma GetRrdInjective(dir: string, app: string, a: Key, b: Key)
    requires GetRrd(dir, app, a).Success? && GetRrd(dir, app, b).Success?
    requires SlashFree(dir, app, a) && SlashFree(dir, app, b)
    requires GetRrd(dir, app, a).value == GetRrd(dir, app, b).value
    ensures |a| == |b|
    ensures forall i :: 0 <= i < |a| ==> PartText(a[i]) == PartText(b[i])
  {
    GetRrdComponents(dir, app, a);
    GetRrdComponents(dir, app, b);
    var n := |a|;
    var la, lb := PartText(a[n - 1]), PartText(b[n - 1]);
    assert la + ".rrd" == lb + ".rrd";
    assert |la| == |lb|;
    assert la == (la + ".rrd")[..|la|] == (lb + ".rrd")[..|lb|] == lb;
    forall i | 0 <= i < n - 1
      ensures PartText(a[i]) == PartText(b[i])
    {
      assert PartText(a[i]) == Split(GetRrd(dir, app, a).value, '/')[i + 2];
    }
  }

  // --------------------------------------------------------------- update

  /** The timestamp of an update: `'N'` (rrdtool's "now") when omitted. */
  datatype Tstamp = Now | At(t: nat)

  function TstampText(t: Tstamp): string
  {
    match t
    case Now => "N"
    case At(n) => NatToString(n)
  }

  function ParseTstamp(s: string): Tstamp
  {
    if s == "N" then Now else At(ParseNat(s))
  }

  /** The position of the first declared data source with no value. */
  function FirstMissing(ds: seq<string>, values: map<string, nat>): (r: Option<nat>)
    ensures r.None? <==> forall i :: 0 <= i < |ds| ==> ds[i] in values
    ensures r.Some? ==> r.value < |ds| && ds[r.value] !in values
    ensures r.Some? ==> forall j :: 0 <= j < r.value ==> ds[j] in values
  {
    if |ds| == 0 then None
    else if ds[0] !in values then Some(0)
    else match FirstMissing(ds[1..], values)
      case None => None
      case Some(i) => Some(i + 1)
  }

  predicate Complete(ds: seq<string>, values: map<string, nat>)
  {
    forall i :: 0 <= i < |ds| ==> ds[i] in values
  }

  /** The values in data-source declaration order. */
  function Ordered(ds: seq<string>, values: map<string, nat>): seq<nat>
    requires Complete(ds, values)
  {
    seq(|ds|, i requires 0 <= i < |ds| => values[ds[i]])
  }

  /** The row string of RRD.update: `tstamp:v1:v2:...` in declaration order;
      a declared data source without a value raises KeyError. */
  function UpdateLine(ds: seq<string>, values: map<string, nat>, ts: Tstamp): (r: Result<string>)
    ensures r.Success? <==> Complete(ds, values)
    ensures r.Failure? ==> exists i :: 0 <= i < |ds| && r.error == KeyError(ds[i]) && ds[i] !in values
    ensures r.Failure? ==> FirstMissing(ds, values).Some? && r.error == KeyError(ds[FirstMissing(ds, values).value])
  {
    match FirstMissing(ds, values)
    case Some(i) => Failure(KeyError(ds[i]))
    case None =>
      Success(TstampText(ts) + ":" + Join(Rendered(ds, values), ':'))
  }

  /** How rrdtool reads an update string: the timestamp, then one value per
      ':'-separated field. */
  function ParseUpdate(line: string): (Tstamp, seq<nat>)
  {
    var f := Split(line, ':');
    (ParseTstamp(f[0]), seq(|f| - 1, i requires 0 <= i < |f| - 1 => ParseNat(f[i + 1])))
  }

  /** The values rendered by `str()`, in declaration order. */
  function Rendered(ds: seq<string>, values: map<string, nat>): (r: seq<string>)
    requires Complete(ds, values)
    ensures |r| == |ds|
    ensures forall i :: 0 <= i < |ds| ==> ParseNat(r[i]) == values[ds[i]] && AllDigits(r[i])
  {
    var r := seq(|ds|, i requires 0 <= i < |ds| => NatToString(values[ds[i]]));
    assert forall i :: 0 <= i < |ds| ==> ParseNat(r[i]) == values[ds[i]] by {
      forall i | 0 <= i < |ds|
        ensures ParseNat(r[i]) == values[ds[i]]
      {
        ParseNatToString(values[ds[i]]);
      }
    }
    r
  }

  lemma TstampTextRoundTrip(ts: Tstamp)
    ensures ':' !in TstampText(ts)
    ensures ParseTstamp(TstampText(ts)) == ts
  {
    if ts.At? {
      var head := TstampText(ts);
      assert AllDigits(head);
      assert head != "N" by { assert IsDigit(head[0]); }
      ParseNatToString(ts.t);
    }
  }

  /** No field of an update string contains the separator. */
  lemma UpdateFieldsNoSep(ts: Tstamp, rendered: seq<string>)
    requires forall i :: 0 <= i < |rendered| ==> AllDigits(rendered[i])
    ensures NoSep([TstampText(ts)] + rendered, ':')
  {
    var parts := [TstampText(ts)] + rendered;
    TstampTextRoundTrip(ts);
    forall i | 0 <= i < |parts|
      ensures ':' !in parts[i]
    {
      if i > 0 { assert AllDigits(parts[i]); }
    }
  }

  /** Splitting an update string at ':' gives back its fields. */
  lemma UpdateLineFields(ds: seq<string>, values: map<string, nat>, ts: Tstamp)
    requires |ds| > 0
    requires UpdateLine(ds, values, ts).Success?
    ensures Split(UpdateLine(ds, values, ts).value, ':') == [TstampText(ts)] + Rendered(ds, values)
  {
    var rendered := Rendered(ds, values);
    var head := TstampText(ts);
    assert UpdateLine(ds, values, ts).value == head + [':'] + Join(rendered, ':');
    JoinCons(head, rendered, ':');
    UpdateFieldsNoSep(ts, rendered);
    SplitJoin([head] + rendered, ':');
  }

  /** Reading a line whose fields are known. */
  lemma ParseUpdateFields(line: string, head: string, fields: seq<string>)
    requires Split(line, ':') == [head] + fields
    ensures ParseUpdate(line) == (ParseTstamp(head), seq(|fields|, i requires 0 <= i < |fields| => ParseNat(fields[i])))
  {
    var f := Split(line, ':');
    var vals := seq(|f| - 1, i requires 0 <= i < |f| - 1 => ParseNat(f[i + 1]));
    assert |vals| == |fields|;
    forall i | 0 <= i < |fields|
      ensures vals[i] == ParseNat(fields[i])
    {
      assert f[i + 1] == fields[i];
    }
    assert vals == seq(|fields|, i requires 0 <= i < |fields| => ParseNat(fields[i]));
  }

  /** The update string carries the timestamp and exactly the declared data
      sources' values, in declaration order. */
  lemma UpdateLineRoundTrip(ds: seq<string>, values: map<string, nat>, ts: Tstamp)
    requires |ds| > 0
    requires UpdateLine(ds, values, ts).Success?
    ensures ParseUpdate(UpdateLine(ds, values, ts).value) == (ts, Ordered(ds, values))
  {
    var rendered := Rendered(ds, values);
    UpdateLineFields(ds, values, ts);
    ParseUpdateFields(UpdateLine(ds, values, ts).value, TstampText(ts), rendered);
    TstampTextRoundTrip(ts);
    assert seq(|rendered|, i requires 0 <= i < |rendered| => ParseNat(rendered[i])) == Ordered(ds, values);
  }

  // --------------------------------------------------------------- create

  /** `DS:<name>:COUNTER:<TIMEOUT>:<MIN>:<MAX>` (create_rrd.get_counter). */
  function DataSourceSpec(ds: string, s: Settings): string
  {
    "DS:" + ds + ":COUNTER:" + s.timeout + ":" + s.minValue + ":" + s.maxValue
  }

  /** `RRA:AVERAGE:<XFF>:<steps>:<PERIOD>` (RRD._get_archives). */
  function ArchiveSpec(steps: string, s: Settings): string
  {
    "RRA:AVERAGE:" + s.xff + ":" + steps + ":" + s.period
  }

  predicate ColonFree(s: Settings)
  {
    ':' !in s.xff && ':' !in s.period && ':' !in s.timeout && ':' !in s.minValue && ':' !in s.maxValue
  }

  lemma DataSourceSpecFields(ds: string, s: Settings)
    requires ':' !in ds && ColonFree(s)
    ensures Split(DataSourceSpec(ds, s), ':') == ["DS", ds, "COUNTER", s.timeout, s.minValue, s.maxValue]
  {
    var parts := ["DS", ds, "COUNTER", s.timeout, s.minValue, s.maxValue];
    JoinCons(s.minValue, [s.maxValue], ':');
    JoinCons(s.timeout, parts[4..], ':');
    JoinCons("COUNTER", parts[3..], ':');
    JoinCons(ds, parts[2..], ':');
    JoinCons("DS", parts[1..], ':');
    assert [parts[0]] + parts[1..] == parts;
    assert DataSourceSpec(ds, s) == Join(parts, ':');
    SplitJoin(parts, ':');
  }

  lemma ArchiveSpecFields(steps: string, s: Settings)
    requires ':' !in steps && ColonFree(s)
    ensures Split(ArchiveSpec(steps, s), ':') == ["RRA", "AVERAGE", s.xff, steps, s.period]
  {
    var parts := ["RRA", "AVERAGE", s.xff, steps, s.period];
    JoinCons(steps, [s.period], ':');
    JoinCons(s.xff, parts[3..], ':');
    JoinCons("AVERAGE", parts[2..], ':');
    JoinCons("RRA", parts[1..], ':');
    assert [parts[0]] + parts[1..] == parts;
    assert ArchiveSpec(steps, s) == Join(parts, ':');
    SplitJoin(parts, ':');
  }

  /** The archive steps exactly as the source lists them: a comma is missing
      after `'4h'`, so Python concatenates it with `'8h'`. */
  const ArchiveStepsAsWritten: seq<string> :=
    ["1m", "2m", "4m", "8m", "15m", "30m", "1h", "2h", "4h" + "8h",
     "12h", "1d", "2d", "3d", "6d", "10d", "15d"]

  /** The archive steps the list evidently means: one month of history at
      each of 17 resolutions. */
  const ArchiveSteps: seq<string> :=
    ["1m", "2m", "4m", "8m", "15m", "30m", "1h", "2h", "4h", "8h",
     "12h", "1d", "2d", "3d", "6d", "10d", "15d"]

  /** A step token rrdtool understands here: decimal digits and one of the
      suffixes m(inutes), h(ours), d(ays); its length in minutes. */
  function StepMinutes(token: string): Option<nat>
  {
    if |token| < 2 || !AllDigits(token[..|token| - 1]) then None
    else
      var count := ParseNat(token[..|token| - 1]);
      var unit := token[|token| - 1];
      if unit == 'm' then Some(count)
      else if unit == 'h' then Some(count * 60)
      else if unit == 'd' then Some(count * 1440)
      else None
  }

  /** The source's list is the intended one with items 8 and 9 glued
      together, which leaves 16 archives and one token that is not a step. */
  lemma ArchiveStepsAsWrittenFlaw()
    ensures |ArchiveStepsAsWritten| == 16
    ensures ArchiveStepsAsWritten == ArchiveSteps[..8] + [ArchiveSteps[8] + ArchiveSteps[9]] + ArchiveSteps[10..]
    ensures ArchiveStepsAsWritten[8] == "4h8h" && StepMinutes("4h8h").None?
    ensures "4h" !in ArchiveStepsAsWritten && "8h" !in ArchiveStepsAsWritten
  {
    assert "4h8h"[..3] == "4h8";
    assert !IsDigit("4h8"[1]);
    assert ArchiveStepsAsWritten[8] == "4h8h";
  }

  const IntendedMinutes: seq<nat> :=
    [1, 2, 4, 8, 15, 30, 60, 120, 240, 480, 720, 1440, 2880, 4320, 8640, 14400, 21600]

  /** Every corrected step is a valid token; together they are the steps
      1, 2, 4, 8, 15, 30 minutes, 1, 2, 4, 8, 12 hours and 1, 2, 3, 6, 10, 15
      days, strictly increasing. */
  lemma ArchiveStepsIntended()
    ensures |ArchiveSteps| == 17
    ensures forall i :: 0 <= i < 17 ==> StepMinutes(ArchiveSteps[i]) == Some(IntendedMinutes[i])
    ensures forall i, j :: 0 <= i < j < 17 ==> IntendedMinutes[i] < IntendedMinutes[j]
  {
    forall i | 0 <= i < 17
      ensures StepMinutes(ArchiveSteps[i]) == Some(IntendedMinutes[i])
    {
      var t := ArchiveSteps[i];
      var digits := t[..|t| - 1];
      if |t| == 2 {
        assert ParseNat(digits) == ParseNat(digits[..0]) * 10 + DigitValue(digits[0]);
      } else {
        assert |t| == 3;
        assert digits[..1] == [t[0]];
        assert ParseNat(digits) == ParseNat(digits[..1]) * 10 + DigitValue(digits[1]);
        assert ParseNat(digits[..1]) == ParseNat(digits[..0]) * 10 + DigitValue(digits[0]);
      }
    }
  }

  /** One archive string per step, in order (RRD._get_archives). */
  function ArchivesFrom(steps: seq<string>, s: Settings): (r: seq<string>)
    ensures |r| == |steps| && forall k :: 0 <= k < |steps| ==> r[k] == ArchiveSpec(steps[k], s)
    ensures ColonFree(s) ==> forall k :: 0 <= k < |steps| && ':' !in steps[k] ==>
      Split(r[k], ':') == ["RRA", "AVERAGE", s.xff, steps[k], s.period]
  {
    var r := seq(|steps|, k requires 0 <= k < |steps| => ArchiveSpec(steps[k], s));
    assert ColonFree(s) ==> forall k :: 0 <= k < |steps| && ':' !in steps[k] ==>
      Split(r[k], ':') == ["RRA", "AVERAGE", s.xff, steps[k], s.period] by {
      if ColonFree(s) {
        forall k | 0 <= k < |steps| && ':' !in steps[k]
          ensures Split(r[k], ':') == ["RRA", "AVERAGE", s.xff, steps[k], s.period]
        {
          ArchiveSpecFields(steps[k], s);
        }
      }
    }
    r
  }

  /** The arguments of rrdtool.create for a new RRD with the given archive
      steps: start `'N'`, step STATS_INTERVAL, one COUNTER per data source,
      then the archives. */
  function CreateOptionsFrom(path: string, ds: seq<string>, s: Settings, steps: seq<string>): seq<string>
  {
    [path, "--start", "N", "--step", NatToString(s.statsInterval)]
    + seq(|ds|, i requires 0 <= i < |ds| => DataSourceSpec(ds[i], s))
    + ArchivesFrom(steps, s)
  }

  /** create_rrd as written: the archives of the 16-item step list. */
  function CreateOptionsAsWritten(path: string, ds: seq<string>, s: Settings): seq<string>
  {
    CreateOptionsFrom(path, ds, s, ArchiveStepsAsWritten)
  }

  /** create_rrd with the corrected 17-item step list; what RRD.update
      issues in this model. */
  function CreateOptions(path: string, ds: seq<string>, s: Settings): seq<string>
  {
    CreateOptionsFrom(path, ds, s, ArchiveSteps)
  }

  /** A new RRD declares each data source, in order, as a COUNTER, and then
      one AVERAGE archive per step, in order. */
  lemma CreateOptionsFromDeclare(path: string, ds: seq<string>, s: Settings, steps: seq<string>)
    requires ColonFree(s)
    requires forall i :: 0 <= i < |ds| ==> ':' !in ds[i]
    requires forall k :: 0 <= k < |steps| ==> ':' !in steps[k]
    ensures var opts := CreateOptionsFrom(path, ds, s, steps);
      && |opts| == 5 + |ds| + |steps|
      && opts[0] == path
      && (forall i :: 0 <= i < |ds| ==>
            Split(opts[5 + i], ':') == ["DS", ds[i], "COUNTER", s.timeout, s.minValue, s.maxValue])
      && (forall k :: 0 <= k < |steps| ==> Split(opts[5 + |ds| + k], ':') == ["RRA", "AVERAGE", s.xff, steps[k], s.period])
  {
    var opts := CreateOptionsFrom(path, ds, s, steps);
    forall i | 0 <= i < |ds|
      ensures Split(opts[5 + i], ':') == ["DS", ds[i], "COUNTER", s.timeout, s.minValue, s.maxValue]
    {
      assert opts[5 + i] == DataSourceSpec(ds[i], s);
      DataSourceSpecFields(ds[i], s);
    }
    forall k | 0 <= k < |steps|
      ensures Split(opts[5 + |ds| + k], ':') == ["RRA", "AVERAGE", s.xff, steps[k], s.period]
    {
      assert opts[5 + |ds| + k] == ArchiveSpec(steps[k], s);
      ArchiveSpecFields(steps[k], s);
    }
  }

  /** As written, create_rrd passes 16 archives; the ninth has the fused
      step `4h8h`, and no archive has step `4h` or `8h`. */
  lemma CreateOptionsAsWrittenDeclare(path: string, ds: seq<string>, s: Settings)
    requires ColonFree(s)
    requires forall i :: 0 <= i < |ds| ==> ':' !in ds[i]
    ensures var opts := CreateOptionsAsWritten(path, ds, s);
      && |opts| == 5 + |ds| + 16
      && Split(opts[5 + |ds| + 8], ':') == ["RRA", "AVERAGE", s.xff, "4h8h", s.period]
      && (forall k :: 0 <= k < 16 ==>
            Split(opts[5 + |ds| + k], ':') == ["RRA", "AVERAGE", s.xff, ArchiveStepsAsWritten[k], s.period])
      && "4h" !in ArchiveStepsAsWritten && "8h" !in ArchiveStepsAsWritten
  {
    ArchiveStepsAsWrittenFlaw();
    assert forall k :: 0 <= k < 16 ==> ':' !in ArchiveStepsAsWritten[k];
    CreateOptionsFromDeclare(path, ds, s, ArchiveStepsAsWritten);
  }

  /** With the corrected list, create_rrd passes 17 archives, one per step
      of ArchiveSteps. */
  lemma CreateOptionsDeclare(path: string, ds: seq<string>, s: Settings)
    requires ColonFree(s)
    requires forall i :: 0 <= i < |ds| ==> ':' !in ds[i]
    ensures var opts := CreateOptions(path, ds, s);
      && |opts| == 5 + |ds| + 17
      && opts[0] == path
      && (forall i :: 0 <= i < |ds| ==>
            Split(opts[5 + i], ':') == ["DS", ds[i], "COUNTER", s.timeout, s.minValue, s.maxValue])
      && (forall k :: 0 <= k < 17 ==> Split(opts[5 + |ds| + k], ':') == ["RRA", "AVERAGE", s.xff, ArchiveSteps[k], s.period])
  {
    assert forall k :: 0 <= k < 17 ==> ':' !in ArchiveSteps[k];
    CreateOptionsFromDeclare(path, ds, s, ArchiveSteps);
  }

  /** A call to rrdtool that changes the database. */
  datatype Command = Create(args: seq<string>) | UpdateRow(path: string, line: string)

  /** The rrdtool calls RRD.update issued, and the exception it raised. */
  datatype UpdateOutcome = UpdateOutcome(issued: seq<Command>, error: Option<Error>)

  /** RRD.update without a timestamp argument is `ts == Now`. The RRD is
      created first when it does not exist (even when the row then turns out
      to lack a value), and the row is written last. */
  function Update(lib: RrdTool, s: Settings, app: string, ds: seq<string>, index: Key,
                  values: map<string, nat>, ts: Tstamp): (r: UpdateOutcome)
    ensures GetRrd(s.dir, app, index).Failure? ==> r == UpdateOutcome([], Some(GetRrd(s.dir, app, index).error))
    ensures GetRrd(s.dir, app, index).Success? ==>
      var path := GetRrd(s.dir, app, index).value;
      && (r.error.None? <==> Complete(ds, values))
      && (lib.present(path) ==> forall k :: 0 <= k < |r.issued| ==> !r.issued[k].Create?)
      && (!lib.present(path) ==> |r.issued| > 0 && r.issued[0] == Create(CreateOptions(path, ds, s)))
      && (r.error.None? ==>
            && |r.issued| > 0
            && r.issued[|r.issued| - 1].UpdateRow?
            && r.issued[|r.issued| - 1].path == path
            && (|ds| > 0 ==> ParseUpdate(r.issued[|r.issued| - 1].line) == (ts, Ordered(ds, values))))
      && (r.error.Some? ==> forall k :: 0 <= k < |r.issued| ==> !r.issued[k].UpdateRow?)
      && (r.error.Some? ==> FirstMissing(ds, values).Some? && r.error.value == KeyError(ds[FirstMissing(ds, values).value]))
      && r.issued == (if lib.present(path) then [] else [Create(CreateOptions(path, ds, s))])
                     + (if r.error.None? then [UpdateRow(path, UpdateLine(ds, values, ts).value)] else [])
  {
    match GetRrd(s.dir, app, index)
    case Failure(e) => UpdateOutcome([], Some(e))
    case Success(path) =>
      var created := if lib.present(path) then [] else [Create(CreateOptions(path, ds, s))];
      match UpdateLine(ds, values, ts)
      case Failure(e) => UpdateOutcome(created, Some(e))
      case Success(line) =>
        assert |ds| > 0 ==> ParseUpdate(line) == (ts, Ordered(ds, values)) by {
          if |ds| > 0 { UpdateLineRoundTrip(ds, values, ts); }
        }
        UpdateOutcome(created + [UpdateRow(path, line)], None)
  }

  // ---------------------------------------------------------------- fetch

  /** A `start`/`end` argument of RRD.fetch: Python None, an int, or a str
      passed to rrdtool verbatim (`'now'`, `'end-30s'`, `'first'`, ...). */
  datatype Arg = NoArg | IntArg(i: int) | StrArg(s: string)

  /** `x -= 1` only when x is an int. */
  function Decrement(a: Arg): Arg
  {
    if a.IntArg? then IntArg(a.i - 1) else a
  }

  /** RRD._calc_start_end. `end` defaults to `now`; a missing `start` becomes
      `end - n_points * STATS_INTERVAL` (TypeError when n_points is None or
      end is a str); `'first'` asks rrdtool for the RRD's first timestamp.
      Then each int bound is decremented so that rrdtool includes it. */
  function CalcStartEnd(start: Arg, end: Arg, nPoints: Option<int>, now: int, interval: nat,
                        first: int): (r: Result<(Arg, Arg)>)
    ensures r.Failure? <==> start.NoArg? && (nPoints.None? || end.StrArg?)
    ensures r.Failure? ==> r.error == TypeError
    ensures r.Success? ==> !r.value.0.NoArg? && !r.value.1.NoArg?
    ensures r.Success? ==> r.value.1 == (if end.NoArg? then IntArg(now - 1) else Decrement(end))
    ensures r.Success? && start.IntArg? ==> r.value.0 == IntArg(start.i - 1)
    ensures r.Success? && start.StrArg? && start.s != "first" ==> r.value.0 == start
    ensures r.Success? && start == StrArg("first") ==> r.value.0 == IntArg(first - 1)
  {
    var end1 := if end.NoArg? then IntArg(now) else end;
    if start.NoArg? then
      if nPoints.None? || !end1.IntArg? then Failure(TypeError)
      else Success((Decrement(IntArg(end1.i - nPoints.value * interval)), Decrement(end1)))
    else
      var start1 := if start == StrArg("first") then IntArg(first) else start;
      Success((Decrement(start1), Decrement(end1)))
  }

  /** The window rrdtool is asked for: the latest `n_points` intervals when
      no start is given, and otherwise the same length as the caller's
      window, shifted one second back. */
  lemma CalcStartEndWindow(start: Arg, end: Arg, nPoints: Option<int>, now: int, interval: nat, first: int)
    requires !end.StrArg?
    requires start.NoArg? ==> nPoints.Some?
    ensures var r := CalcStartEnd(start, end, nPoints, now, interval, first);
      var e := if end.IntArg? then end.i else now;
      && r.Success?
      && r.value.1 == IntArg(e - 1)
      && (start.NoArg? ==> r.value.0.IntArg? && r.value.1.i - r.value.0.i == nPoints.value * interval)
      && (start.IntArg? ==> r.value.0.IntArg? && r.value.1.i - r.value.0.i == e - start.i)
  {
  }

  /** Python's `a // b`, which rounds toward minus infinity. */
  function FloorDiv(a: int, b: int): (q: int)
    requires b != 0
    ensures b > 0 ==> b * q <= a < b * q + b
    ensures b < 0 ==> b * q >= a > b * q + b
  {
    if b > 0 then a / b else (-a) / (-b)
  }

  /** The resolution of RRD.fetch: `(end - start) // n_points` seconds, asked
      for only when n_points is given, both bounds are ints and the quotient
      is positive; `n_points == 0` divides by zero. */
  function Resolution(start: Arg, end: Arg, nPoints: Option<int>): (r: Result<Option<int>>)
    ensures r.Failure? <==> nPoints == Some(0) && start.IntArg? && end.IntArg?
    ensures r.Failure? ==> r.error == ZeroDivisionError
    ensures r.Success? && r.value.Some? ==> r.value.value > 0 && nPoints.Some? && start.IntArg? && end.IntArg?
  {
    if nPoints.Some? && start.IntArg? && end.IntArg? then
      if nPoints.value == 0 then Failure(ZeroDivisionError)
      else
        var q := FloorDiv(end.i - start.i, nPoints.value);
        if q > 0 then Success(Some(q)) else Success(None)
    else Success(None)
  }

  /** For a positive n_points, a resolution is requested exactly when the
      window spans at least n_points seconds, and it is the coarsest step
      that still cuts the window into n_points buckets. */
  lemma ResolutionCoarsestFitting(start: int, end: int, n: int)
    requires n > 0
    ensures var r := Resolution(IntArg(start), IntArg(end), Some(n));
      && r.Success?
      && (r.value.Some? <==> end - start >= n)
      && (r.value.Some? ==> r.value.value * n <= end - start < (r.value.value + 1) * n)
  {
    var q := FloorDiv(end - start, n);
    assert n * q <= end - start < n * q + n;
    if end - start >= n {
      MulStrictCancel(q + 1, 1, n);
    } else {
      MulStrictCancel(1, q, n);
    }
  }

  function ArgText(a: Arg): string
  {
    match a
    case NoArg => "None"
    case IntArg(i) => IntToString(i)
    case StrArg(s) => s
  }

  /** The argument list of rrdtool.fetch. */
  function FetchArgs(path: string, start: Arg, end: Arg, resolution: Option<int>): seq<string>
  {
    [path, "AVERAGE", "--start", ArgText(start), "--end", ArgText(end)]
    + (if resolution.Some? then ["-a", "-r", IntToString(resolution.value) + "s"] else [])
  }

  /** Python's `range(lo, hi, step)` for a positive step. */
  function PyRange(lo: int, hi: int, step: int): (r: seq<int>)
    requires step > 0
    ensures forall i :: 0 <= i < |r| ==> r[i] == lo + i * step && r[i] < hi
    ensures lo + |r| * step >= hi
    decreases hi - lo
  {
    if lo >= hi then []
    else
      var rest := PyRange(lo + step, hi, step);
      assert forall i :: 0 <= i < |rest| ==> rest[i] == lo + (i + 1) * step;
      [lo] + rest
  }

  /** The timestamps RRD.fetch returns, `range(start + step, stop + 1, step)`:
      one per row, each a multiple of step after start, the first one step
      after start, the last one exactly stop. */
  function TimestampRange(reply: Reply): (r: seq<int>)
    ensures |r| == |reply.rows|
    ensures forall i :: 0 <= i < |r| ==> r[i] == reply.start + (i + 1) * reply.step
    ensures forall i :: 0 <= i < |r| ==> reply.start < r[i] <= reply.stop
  {
    var r := PyRange(reply.start + reply.step, reply.stop + 1, reply.step);
    PyRangeLength(reply.start, |reply.rows|, reply.step);
    r
  }

  /** `range(a + step, a + n * step + 1, step)` has exactly n elements. */
  lemma PyRangeLength(a: int, n: nat, step: int)
    requires step > 0
    ensures |PyRange(a + step, a + n * step + 1, step)| == n
  {
    var r := PyRange(a + step, a + n * step + 1, step);
    assert (|r| + 1) * step > n * step;
    MulStrictCancel(|r| + 1, n, step);
    if |r| > 0 {
      assert r[|r| - 1] == a + step + (|r| - 1) * step;
      assert |r| * step < n * step + 1;
      MulCancel(|r|, n, step);
    }
  }

  lemma MulCancel(a: int, b: int, c: int)
    requires c > 0 && a * c <= b * c
    ensures a <= b
  {
  }

  lemma MulStrictCancel(a: int, b: int, c: int)
    requires c > 0 && a * c > b * c
    ensures a > b
  {
  }

  lemma ModOfMultiple(k: int, c: int)
    requires c > 0
    ensures (k * c) % c == 0
  {
    var q, m := (k * c) / c, (k * c) % c;
    assert c * (k - q) == m;
    SmallMultiple(c, k - q);
  }

  lemma SmallMultiple(c: int, d: int)
    requires c > 0 && 0 <= c * d < c
    ensures d == 0
  {
  }

  /** The returned timestamps are exactly the step boundaries after start up
      to and including stop. */
  lemma TimestampRangeExact(reply: Reply, t: int)
    ensures t in TimestampRange(reply) <==>
      reply.start < t <= reply.stop && (t - reply.start) % reply.step == 0
  {
    var r := TimestampRange(reply);
    var step, n := reply.step, |reply.rows|;
    if reply.start < t <= reply.stop && (t - reply.start) % step == 0 {
      var k := (t - reply.start) / step;
      assert t - reply.start == k * step;
      MulStrictCancel(k, 0, step);
      assert k * step <= n * step;
      MulCancel(k, n, step);
      assert r[k - 1] == reply.start + k * step;
    }
    if t in r {
      var i :| 0 <= i < |r| && r[i] == t;
      assert t - reply.start == (i + 1) * step;
      ModOfMultiple(i + 1, step);
    }
  }

  /** What RRD.fetch returns: the timestamps, the data-source names and the
      rows rrdtool fetched. */
  datatype Fetched = Fetched(timestamps: seq<int>, cols: seq<string>, rows: seq<seq<Cell>>)
  {
    /** Distinct columns, one timestamp per row and one value per column in
        every row. */
    predicate Shaped()
    {
      && |cols| > 0
      && (forall i, j :: 0 <= i < j < |cols| ==> cols[i] != cols[j])
      && |timestamps| == |rows|
      && (forall j :: 0 <= j < |rows| ==> |rows[j]| == |cols|)
    }
  }

  /** RRD.fetch. A missing RRD raises NotFound before any bound is computed
      and before rrdtool is called; otherwise the bounds are normalised, a
      resolution is chosen and rrdtool's reply is returned with the rebuilt
      timestamps. */
  function Fetch(lib: RrdTool, s: Settings, app: string, index: Key, start: Arg, end: Arg,
                 nPoints: Option<int>, now: int): (r: Result<Fetched>)
    ensures GetRrd(s.dir, app, index).Failure? ==> r == Failure(GetRrd(s.dir, app, index).error)
    ensures GetRrd(s.dir, app, index).Success? && !lib.present(GetRrd(s.dir, app, index).value) ==>
      r == Failure(NotFound(app, index))
    ensures r.Success? ==> r.value.Shaped() && lib.present(GetRrd(s.dir, app, index).value)
    ensures GetRrd(s.dir, app, index).Success? && lib.present(GetRrd(s.dir, app, index).value) ==>
      var path := GetRrd(s.dir, app, index).value;
      var b := CalcStartEnd(start, end, nPoints, now, s.statsInterval, lib.first(path));
      && (b.Failure? ==> r == Failure(b.error))
      && (b.Success? ==>
            var q := Resolution(b.value.0, b.value.1, nPoints);
            && (q.Failure? ==> r == Failure(q.error))
            && (q.Success? ==>
                  var reply := lib.fetch(FetchArgs(path, b.value.0, b.value.1, q.value));
                  r == Success(Fetched(TimestampRange(reply), reply.cols, reply.rows))))
  {
    var path :- GetRrd(s.dir, app, index);
    if !lib.present(path) then Failure(NotFound(app, index))
    else
      var bounds :- CalcStartEnd(start, end, nPoints, now, s.statsInterval, lib.first(path));
      var resolution :- Resolution(bounds.0, bounds.1, nPoints);
      var reply := lib.fetch(FetchArgs(path, bounds.0, bounds.1, resolution));
      Success(Fetched(TimestampRange(reply), reply.cols, reply.rows))
  }

  /** With int bounds and a positive n_points that fits the window, rrdtool
      is asked for the window shifted one second back, at the coarsest
      resolution giving n_points buckets, and its reply is returned. */
  lemma FetchIntWindow(lib: RrdTool, s: Settings, app: string, index: Key, st: int, en: int, n: int, now: int)
    requires GetRrd(s.dir, app, index).Success? && lib.present(GetRrd(s.dir, app, index).value)
    requires n > 0 && en - st >= n
    ensures var reply := lib.fetch([GetRrd(s.dir, app, index).value, "AVERAGE",
                                    "--start", IntToString(st - 1), "--end", IntToString(en - 1),
                                    "-a", "-r", IntToString((en - st) / n) + "s"]);
      Fetch(lib, s, app, index, IntArg(st), IntArg(en), Some(n), now)
        == Success(Fetched(TimestampRange(reply), reply.cols, reply.rows))
  {
    var path := GetRrd(s.dir, app, index).value;
    var b := CalcStartEnd(IntArg(st), IntArg(en), Some(n), now, s.statsInterval, lib.first(path));
    assert b == Success((IntArg(st - 1), IntArg(en - 1)));
    ResolutionCoarsestFitting(st - 1, en - 1, n);
    assert Resolution(IntArg(st - 1), IntArg(en - 1), Some(n)) == Success(Some((en - st) / n));
    assert FetchArgs(path, IntArg(st - 1), IntArg(en - 1), Some((en - st) / n))
      == [path, "AVERAGE", "--start", IntToString(st - 1), "--end", IntToString(en - 1),
          "-a", "-r", IntToString((en - st) / n) + "s"];
  }

  /** `(n * i) // n == i` for a positive n. */
  lemma FloorDivOfMultiple(i: int, n: int)
    requires n > 0
    ensures FloorDiv(n * i, n) == i
  {
    var q := FloorDiv(n * i, n);
    assert q * n <= i * n;
    MulCancel(q, i, n);
    assert (q + 1) * n > i * n;
    MulStrictCancel(q + 1, i, n);
  }

  /** Without start and end (the REST API's default), rrdtool is asked for
      the last n_points intervals before `now`, one second back, at a
      resolution of one interval. */
  lemma FetchDefaultWindow(lib: RrdTool, s: Settings, app: string, index: Key, n: int, now: int)
    requires GetRrd(s.dir, app, index).Success? && lib.present(GetRrd(s.dir, app, index).value)
    requires n > 0 && s.statsInterval > 0
    ensures var reply := lib.fetch([GetRrd(s.dir, app, index).value, "AVERAGE",
                                    "--start", IntToString(now - n * s.statsInterval - 1),
                                    "--end", IntToString(now - 1),
                                    "-a", "-r", IntToString(s.statsInterval) + "s"]);
      Fetch(lib, s, app, index, NoArg, NoArg, Some(n), now)
        == Success(Fetched(TimestampRange(reply), reply.cols, reply.rows))
  {
    var path := GetRrd(s.dir, app, index).value;
    var i: int := s.statsInterval;
    var b := CalcStartEnd(NoArg, NoArg, Some(n), now, s.statsInterval, lib.first(path));
    assert b == Success((IntArg(now - n * i - 1), IntArg(now - 1)));
    assert (now - 1) - (now - n * i - 1) == n * i;
    FloorDivOfMultiple(i, n);
    assert Resolution(IntArg(now - n * i - 1), IntArg(now - 1), Some(n)) == Success(Some(i));
    assert FetchArgs(path, IntArg(now - n * i - 1), IntArg(now - 1), Some(i))
      == [path, "AVERAGE", "--start", IntToString(now - n * i - 1), "--end", IntToString(now - 1),
          "-a", "-r", IntToString(i) + "s"];
  }

  // --------------------------------------------------------------- latest

  /** The start of RRD.fetch_latest's window: the last three intervals. */
  function LatestStart(s: Settings): string
  {
    "end-" + NatToString(s.statsInterval * 3) + "s"
  }

  predicate Qualifies(ts: seq<int>, rows: seq<seq<Cell>>, i: nat, minT: int)
    requires i < |ts| && i < |rows| && |rows[i]| > 0
  {
    rows[i][0].Value? && ts[i] > minT
  }

  predicate RowsNonEmpty(rows: seq<seq<Cell>>)
  {
    forall j :: 0 <= j < |rows| ==> |rows[j]| > 0
  }

  /** The first row at or after `k` whose first value is not null and whose
      timestamp is recent enough. */
  function FirstQualifyingFrom(ts: seq<int>, rows: seq<seq<Cell>>, minT: int, k: nat): (r: Option<nat>)
    requires |ts| == |rows| && RowsNonEmpty(rows) && k <= |rows|
    ensures r.Some? ==> k <= r.value < |rows| && Qualifies(ts, rows, r.value, minT)
    ensures r.Some? ==> forall j :: k <= j < r.value ==> !Qualifies(ts, rows, j, minT)
    ensures r.None? ==> forall j :: k <= j < |rows| ==> !Qualifies(ts, rows, j, minT)
    decreases |rows| - k
  {
    if k == |rows| then None
    else if Qualifies(ts, rows, k, minT) then Some(k)
    else FirstQualifyingFrom(ts, rows, minT, k + 1)
  }

  /** The loop of RRD.fetch_latest: it walks the rows backwards and keeps the
      last qualifying row it meets, which is the earliest one in time. */
  method LatestScan(ts: seq<int>, rows: seq<seq<Cell>>, minT: int) returns (latest: Option<seq<Cell>>)
    requires |ts| == |rows| && RowsNonEmpty(rows)
    ensures latest.None? <==> forall j :: 0 <= j < |rows| ==> !Qualifies(ts, rows, j, minT)
    ensures latest.Some? ==> exists i :: (0 <= i < |rows| && latest.value == rows[i]
      && Qualifies(ts, rows, i, minT) && forall j :: 0 <= j < i ==> !Qualifies(ts, rows, j, minT))
  {
    latest := None;
    var k := |rows|;
    while k > 0
      invariant 0 <= k <= |rows|
      invariant latest.None? <==> FirstQualifyingFrom(ts, rows, minT, k).None?
      invariant latest.Some? ==> latest.value == rows[FirstQualifyingFrom(ts, rows, minT, k).value]
    {
      k := k - 1;
      if rows[k][0].Value? && ts[k] > minT {
        latest := Some(rows[k]);
      }
    }
  }

  /** `{k: v for k, v in zip(keys, values)}`: later keys win. */
  function ZipMap(keys: seq<string>, values: seq<Cell>): (m: map<string, Cell>)
    requires |keys| == |values|
    ensures forall k :: k in m <==> k in keys
    ensures (forall i, j :: 0 <= i < j < |keys| ==> keys[i] != keys[j]) ==>
      forall i :: 0 <= i < |keys| ==> m[keys[i]] == values[i]
  {
    if |keys| == 0 then map[]
    else map[keys[0] := values[0]] + ZipMap(keys[1..], values[1..])
  }

  /** The argument list fetch_latest hands to rrdtool: start three intervals
      before the end, end `'now'`, no resolution. */
  function LatestArgs(path: string, s: Settings): seq<string>
  {
    [path, "AVERAGE", "--start", LatestStart(s), "--end", "now"]
  }

  /** With the RRD present, fetch_latest's call to RRD.fetch hands rrdtool
      LatestArgs and returns its reply unchanged. */
  lemma FetchLatestCall(lib: RrdTool, s: Settings, app: string, index: Key, now: int)
    requires GetRrd(s.dir, app, index).Success? && lib.present(GetRrd(s.dir, app, index).value)
    ensures var reply := lib.fetch(LatestArgs(GetRrd(s.dir, app, index).value, s));
      Fetch(lib, s, app, index, StrArg(LatestStart(s)), StrArg("now"), None, now)
        == Success(Fetched(TimestampRange(reply), reply.cols, reply.rows))
  {
    var path := GetRrd(s.dir, app, index).value;
    var start, end := StrArg(LatestStart(s)), StrArg("now");
    assert LatestStart(s) != "first";
    var bounds := CalcStartEnd(start, end, None, now, s.statsInterval, lib.first(path));
    assert bounds == Success((start, end));
    assert Resolution(start, end, None) == Success(None);
    assert FetchArgs(path, start, end, None) == LatestArgs(path, s);
  }

  /** The map fetch_latest builds from a fetch result: the earliest
      qualifying row, or zeros, keyed by data-source name. */
  function LatestMap(f: Fetched, minT: int): (m: map<string, Cell>)
    requires f.Shaped()
    ensures forall k :: k in m <==> k in f.cols
    ensures var first := FirstQualifyingFrom(f.timestamps, f.rows, minT, 0);
      && (first.None? ==> forall c :: 0 <= c < |f.cols| ==> m[f.cols[c]] == Value(0.0))
      && (first.Some? ==> forall c :: 0 <= c < |f.cols| ==> m[f.cols[c]] == f.rows[first.value][c])
  {
    var latest := match FirstQualifyingFrom(f.timestamps, f.rows, minT, 0)
      case Some(i) => f.rows[i]
      case None => seq(|f.cols|, _ => Value(0.0));
    ZipMap(f.cols, latest)
  }

  /** RRD.fetch_latest. `{}` when the RRD does not exist; otherwise a map over
      exactly the data sources holding the earliest row whose first value is
      not null and whose timestamp is after `now - 2 * STATS_INTERVAL`, or
      zeros when there is no such row. */
  function FetchLatest(lib: RrdTool, s: Settings, app: string, index: Key, now: int): (r: Result<map<string, Cell>>)
    ensures GetRrd(s.dir, app, index).Failure? ==> r == Failure(GetRrd(s.dir, app, index).error)
    ensures GetRrd(s.dir, app, index).Success? && !lib.present(GetRrd(s.dir, app, index).value) ==>
      r == Success(map[])
    ensures GetRrd(s.dir, app, index).Success? && lib.present(GetRrd(s.dir, app, index).value) ==>
      var reply := lib.fetch(LatestArgs(GetRrd(s.dir, app, index).value, s));
      var first := FirstQualifyingFrom(TimestampRange(reply), reply.rows, now - s.statsInterval * 2, 0);
      && r.Success?
      && (forall k :: k in r.value <==> k in reply.cols)
      && (first.None? ==> forall c :: 0 <= c < |reply.cols| ==> r.value[reply.cols[c]] == Value(0.0))
      && (first.Some? ==> forall c :: 0 <= c < |reply.cols| ==> r.value[reply.cols[c]] == reply.rows[first.value][c])
  {
    match Fetch(lib, s, app, index, StrArg(LatestStart(s)), StrArg("now"), None, now)
    case Failure(NotFound(_, _)) => Success(map[])
    case Failure(e) => Failure(e)
    case Success(f) =>
      FetchLatestCall(lib, s, app, index, now);
      Success(LatestMap(f, now - s.statsInterval * 2))
  }
}
