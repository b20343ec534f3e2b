/** The real-time monitoring commands of the desktop application: the single active-monitoring
    flag, the sampling interval, the adapter statistics line and the per-interval rates.

    The PowerShell outputs and the latency probe are inputs; the background thread is modelled
    one sampling step at a time. */
module MonitoringCmd {
  import opened Wrappers
  import Text

  const U64Limit: nat := 0x1_0000_0000_0000_0000

  /** Rust's `str::parse::<u64>`: an optional `+` and at least one digit, with a value below
      2^64; anything else is an error. */
  function ParseU64(s: string): (r: Option<nat>)
    ensures r.Some? ==> r.value < U64Limit
    ensures Text.AllDigits(s) && s != "" && Text.NatOf(s) < U64Limit ==> r == Some(Text.NatOf(s))
    ensures s == "" ==> r.None?
  {
    var ds := if |s| > 0 && s[0] == '+' then s[1..] else s;
    if ds != [] && Text.AllDigits(ds) && Text.NatOf(ds) < U64Limit then Some(Text.NatOf(ds)) else None
  }

  /** A printed number reads back as itself. */
  lemma ParseRoundTrip(n: nat)
    requires n < U64Limit
    ensures ParseU64(Text.NatToString(n)) == Some(n)
  {
    Text.NatToStringRoundTrip(n);
  }

  /** The adapter statistics: bytes received and sent, packets received and sent, errors in
      and out, discards in and out. */
  datatype Stats = Stats(bytesRecv: nat, bytesSent: nat, packetsRecv: nat, packetsSent: nat,
                         errorsIn: nat, errorsOut: nat, dropsIn: nat, dropsOut: nat)

  const ZeroStats := Stats(0, 0, 0, 0, 0, 0, 0, 0)

  /** `get_adapter_metrics` on the trimmed output: at least eight `|`-separated fields are
      read in order, an unreadable field counting as 0; with fewer fields everything is 0. */
  function ParseStats(line: string): (r: Stats)
    ensures |Text.Split(line, '|')| < 8 ==> r == ZeroStats
    ensures |Text.Split(line, '|')| >= 8 ==>
      (var p := Text.Split(line, '|');
       r.bytesRecv == ParseU64(p[0]).GetOr(0) && r.bytesSent == ParseU64(p[1]).GetOr(0)
       && r.packetsRecv == ParseU64(p[2]).GetOr(0) && r.packetsSent == ParseU64(p[3]).GetOr(0)
       && r.errorsIn == ParseU64(p[4]).GetOr(0) && r.errorsOut == ParseU64(p[5]).GetOr(0)
       && r.dropsIn == ParseU64(p[6]).GetOr(0) && r.dropsOut == ParseU64(p[7]).GetOr(0))
  {
    var p := Text.Split(line, '|');
    if |p| < 8 then ZeroStats
    else Stats(ParseU64(p[0]).GetOr(0), ParseU64(p[1]).GetOr(0), ParseU64(p[2]).GetOr(0),
               ParseU64(p[3]).GetOr(0), ParseU64(p[4]).GetOr(0), ParseU64(p[5]).GetOr(0),
               ParseU64(p[6]).GetOr(0), ParseU64(p[7]).GetOr(0))
  }

  /** The statistics line the PowerShell script prints. */
  function StatsLine(s: Stats): string {
    Text.Join([Text.NatToString(s.bytesRecv), Text.NatToString(s.bytesSent),
               Text.NatToString(s.packetsRecv), Text.NatToString(s.packetsSent),
               Text.NatToString(s.errorsIn), Text.NatToString(s.errorsOut),
               Text.NatToString(s.dropsIn), Text.NatToString(s.dropsOut)], "|")
  }

  predicate Fits(s: Stats) {
    s.bytesRecv < U64Limit && s.bytesSent < U64Limit && s.packetsRecv < U64Limit && s.packetsSent < U64Limit
    && s.errorsIn < U64Limit && s.errorsOut < U64Limit && s.dropsIn < U64Limit && s.dropsOut < U64Limit
  }

  /** The parser reads back every statistics line the script prints. */
  lemma StatsLineRoundTrip(s: Stats)
    requires Fits(s)
    ensures ParseStats(StatsLine(s)) == s
  {
    var parts := [Text.NatToString(s.bytesRecv), Text.NatToString(s.bytesSent),
                  Text.NatToString(s.packetsRecv), Text.NatToString(s.packetsSent),
                  Text.NatToString(s.errorsIn), Text.NatToString(s.errorsOut),
                  Text.NatToString(s.dropsIn), Text.NatToString(s.dropsOut)];
    assert forall i, k :: 0 <= i < |parts| && 0 <= k < |parts[i]| ==> Text.IsDigit(parts[i][k]);
    Text.JoinSplit(parts, '|');
    assert Text.Split(StatsLine(s), '|') == parts;
    ParseRoundTrip(s.bytesRecv); ParseRoundTrip(s.bytesSent);
    ParseRoundTrip(s.packetsRecv); ParseRoundTrip(s.packetsSent);
    ParseRoundTrip(s.errorsIn); ParseRoundTrip(s.errorsOut);
    ParseRoundTrip(s.dropsIn); ParseRoundTrip(s.dropsOut);
  }

  // ---------------------------------------------------------------- the monitoring flag

  /** `start_monitoring`: an error when monitoring is already active; otherwise the flag is
      set and the interval is the requested one, but at least 500 ms. */
  function Start(active: bool, intervalMs: nat): (r: Result<(bool, nat)>)
    ensures r.Err? <==> active
    ensures r.Ok? ==> r.value.0 && r.value.1 >= 500
    ensures r.Ok? && intervalMs >= 500 ==> r.value.1 == intervalMs
  {
    if active then Err("El monitoreo ya está activo")
    else Ok((true, if intervalMs < 500 then 500 else intervalMs))
  }

  /** `stop_monitoring` clears the flag, so monitoring can be started again. */
  function Stop(active: bool): (r: bool)
    ensures !r
    ensures Start(r, 500).Ok?
  {
    false
  }

  // ---------------------------------------------------------------- one sampling step

  /** Rust's `saturating_sub` on unsigned counters. */
  function SatSub(a: nat, b: nat): (r: nat)
    ensures a >= b ==> r + b == a
    ensures a < b ==> r == 0
  {
    if a >= b then a - b else 0
  }

  datatype Metrics = Metrics(downloadMbps: real, uploadMbps: real, latencyMs: real,
                             packetsSentPerSec: nat, packetsRecvPerSec: nat,
                             errorsIn: nat, errorsOut: nat, dropsIn: nat, dropsOut: nat)

  const DefaultMetrics := Metrics(0.0, 0.0, 0.0, 0, 0, 0, 0, 0, 0)

  /** The counters remembered between samples: bytes and packets received and sent. */
  datatype Prev = Prev(bytesRecv: nat, bytesSent: nat, packetsRecv: nat, packetsSent: nat)

  const StartPrev := Prev(0, 0, 0, 0)

  /** Megabits per second for `bytes` over `secs` seconds. */
  function Mbps(bytes: nat, secs: real): (r: real)
    requires secs > 0.0
    ensures r >= 0.0 && r * (secs * 1000000.0) == bytes as real * 8.0
  {
    (bytes as real * 8.0) / (secs * 1000000.0)
  }

  /** Packets per second, truncated towards zero as a float-to-unsigned cast does. */
  function PerSec(packets: nat, secs: real): (r: nat)
    requires secs > 0.0
    ensures r as real <= packets as real / secs < r as real + 1.0
  {
    (packets as real / secs).Floor
  }

  /** One sample as the loop takes it. A failed read emits the default metrics and keeps the
      remembered counters; otherwise the rates are the saturating deltas over the interval and
      the new counters are remembered. */
  function Sample(prev: Prev, read: Result<Stats>, latency: Option<real>, intervalMs: nat): (r: (Metrics, Prev))
    requires intervalMs >= 500
    ensures read.Err? ==> r == (DefaultMetrics, prev)
    ensures read.Ok? ==>
      (var s := read.value;
       var secs := intervalMs as real / 1000.0;
       r.1 == Prev(s.bytesRecv, s.bytesSent, s.packetsRecv, s.packetsSent)
       && r.0.downloadMbps == Mbps(SatSub(s.bytesRecv, prev.bytesRecv), secs)
       && r.0.uploadMbps == Mbps(SatSub(s.bytesSent, prev.bytesSent), secs)
       && r.0.packetsSentPerSec == PerSec(SatSub(s.packetsSent, prev.packetsSent), secs)
       && r.0.packetsRecvPerSec == PerSec(SatSub(s.packetsRecv, prev.packetsRecv), secs)
       && r.0.latencyMs == latency.GetOr(0.0)
       && r.0.errorsIn == s.errorsIn && r.0.errorsOut == s.errorsOut
       && r.0.dropsIn == s.dropsIn && r.0.dropsOut == s.dropsOut)
    ensures r.0.downloadMbps >= 0.0 && r.0.uploadMbps >= 0.0
  {
    match read
    case Err(_) => (DefaultMetrics, prev)
    case Ok(s) =>
      var secs := intervalMs as real / 1000.0;
      var m := Metrics(Mbps(SatSub(s.bytesRecv, prev.bytesRecv), secs),
                       Mbps(SatSub(s.bytesSent, prev.bytesSent), secs),
                       latency.GetOr(0.0),
                       PerSec(SatSub(s.packetsSent, prev.packetsSent), secs),
                       PerSec(SatSub(s.packetsRecv, prev.packetsRecv), secs),
                       s.errorsIn, s.errorsOut, s.dropsIn, s.dropsOut);
      (m, Prev(s.bytesRecv, s.bytesSent, s.packetsRecv, s.packetsSent))
  }

  /** A counter that went backwards (an adapter reset) reads as no traffic, not as a
      negative rate. */
  lemma CounterResetReadsAsIdle(prev: Prev, s: Stats, latency: Option<real>, intervalMs: nat)
    requires intervalMs >= 500 && s.bytesRecv < prev.bytesRecv
    ensures Sample(prev, Ok(s), latency, intervalMs).0.downloadMbps == 0.0
  {
  }

  /** As written, the loop starts from zero counters, so its first sample reports every byte
      the adapter has moved since it came up as traffic of one interval. */
  lemma FirstSampleAsWrittenSpikes(s: Stats, intervalMs: nat)
    requires intervalMs >= 500 && s.bytesRecv > 0
    ensures Sample(StartPrev, Ok(s), None, intervalMs).0.downloadMbps > 0.0
    ensures SampleFrom(None, Ok(s), None, intervalMs).0.downloadMbps == 0.0
  {
  }

  /** One sample with the first one only remembering the counters: without previous counters
      the rates are 0. */
  function SampleFrom(prev: Option<Prev>, read: Result<Stats>, latency: Option<real>, intervalMs: nat)
    : (r: (Metrics, Option<Prev>))
    requires intervalMs >= 500
    ensures prev.Some? ==> r.1.Some? && (r.0, r.1.value) == Sample(prev.value, read, latency, intervalMs)
    ensures prev.None? && read.Ok? ==>
      (r.0.downloadMbps == 0.0 && r.0.uploadMbps == 0.0 && r.0.packetsSentPerSec == 0
       && r.0.packetsRecvPerSec == 0 && r.1.Some?)
    ensures read.Err? ==> r == (DefaultMetrics, prev)
  {
    if prev.Some? then
      var (m, p) := Sample(prev.value, read, latency, intervalMs);
      (m, Some(p))
    else
      match read
      case Err(_) => (DefaultMetrics, None)
      case Ok(s) =>
        var (m, p) := Sample(Prev(s.bytesRecv, s.bytesSent, s.packetsRecv, s.packetsSent), read, latency, intervalMs);
        (m, Some(p))
  }

  /** `get_current_metrics`: a read error is returned; otherwise the latency, the error and
      discard counters, and the cumulative packet counters in the per-second fields. */
  function CurrentMetrics(read: Result<Stats>, latency: Option<real>): (r: Result<Metrics>)
    ensures r.Err? <==> read.Err?
    ensures r.Ok? ==>
      (r.value.downloadMbps == 0.0 && r.value.uploadMbps == 0.0
       && r.value.packetsSentPerSec == read.value.packetsSent && r.value.packetsRecvPerSec == read.value.packetsRecv
       && r.value.latencyMs == latency.GetOr(0.0))
  {
    match read
    case Err(e) => Err(e)
    case Ok(s) => Ok(Metrics(0.0, 0.0, latency.GetOr(0.0), s.packetsSent, s.packetsRecv,
                             s.errorsIn, s.errorsOut, s.dropsIn, s.dropsOut))
  }
}
