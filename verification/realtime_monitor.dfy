/** The real-time network monitor of the Windows client: the latency probe with its fallback
    to the last value, the adapter lookup, the per-second rates between two snapshots, the
    300-snapshot history and the average and peak rates over a window.

    The operating-system counters, the clock (seconds as a real) and the ping output are
    inputs; the sampling threads are not modelled. */
module RealtimeMonitor {
  import opened Wrappers
  import Seqs
  import Text
  import PingOutput

  // ---------------------------------------------------------------- latency

  /** `measure_latency` given whether ping exited with status zero and the latency its output
      yielded: a measured value is returned and remembered; otherwise the last known value is
      returned and kept. The result is (returned latency, remembered latency). */
  function Measure(last: real, exitOk: bool, found: Option<real>): (r: (real, real))
    ensures r.0 == r.1
    ensures exitOk && found.Some? ==> r.1 == found.value
    ensures !(exitOk && found.Some?) ==> r.1 == last
  {
    if exitOk && found.Some? then (found.value, found.value) else (last, last)
  }

  /** The Windows branch: the first `tiempo=Nms`, `time=Nms` or `time<Nms` in the output.
      The returned and the remembered latency agree; a failed ping or an output without a
      reply time keeps the last value. */
  function MeasureWindows(last: real, exitOk: bool, stdout: string): (r: (real, real))
    ensures r.0 == r.1
    ensures !exitOk ==> r == (last, last)
    ensures PingOutput.SearchReplyTime(stdout).None? ==> r == (last, last)
    ensures exitOk && PingOutput.SearchReplyTime(stdout).Some? ==>
      r.0 == PingOutput.SearchReplyTime(stdout).value as real
  {
    var n := PingOutput.SearchReplyTime(stdout);
    Measure(last, exitOk, if n.Some? then Some(n.value as real) else None)
  }

  /** A failed probe never loses the last value: repeated failures keep returning it. */
  lemma FailuresKeepLast(last: real, found: Option<real>)
    ensures Measure(Measure(last, false, found).1, false, found) == (last, last)
  {
  }

  // ---------------------------------------------------------------- adapter lookup

  datatype Counters = Counters(bytesSent: int, bytesRecv: int, packetsSent: int, packetsRecv: int,
                               errIn: int, errOut: int, dropIn: int, dropOut: int)

  /** The name matches a key when either, lower-cased, contains the other. */
  predicate Similar(name: string, key: string) {
    Text.Contains(Text.LowerStr(key), Text.LowerStr(name)) || Text.Contains(Text.LowerStr(name), Text.LowerStr(key))
  }

  /** The adapter whose counters a snapshot reads: the exact name when present, otherwise the
      first similar name in the operating system's order, otherwise the totals labelled "All". */
  function FindAdapter(name: string, nics: seq<(string, Counters)>, totals: Counters): (r: (string, Counters))
    ensures (exists k :: 0 <= k < |nics| && nics[k].0 == name) ==> r.0 == name
    ensures (forall k :: 0 <= k < |nics| ==> !Similar(name, nics[k].0)) ==> r == ("All", totals)
    ensures r != ("All", totals) ==> exists k :: 0 <= k < |nics| && nics[k] == r
  {
    match Seqs.FirstIndex(nics, (n: (string, Counters)) => n.0 == name)
    case Some(i) =>
      Text.ContainsWitness(Text.LowerStr(name), Text.LowerStr(name), 0);
      nics[i]
    case None =>
      match Seqs.FirstIndex(nics, (n: (string, Counters)) => Similar(name, n.0))
      case Some(i) => nics[i]
      case None => ("All", totals)
  }

  /** An exact match wins over an earlier similar name. */
  lemma ExactNameWins(name: string, nics: seq<(string, Counters)>, totals: Counters, i: nat)
    requires i < |nics| && nics[i].0 == name
    requires forall k :: 0 <= k < i ==> nics[k].0 != name
    ensures FindAdapter(name, nics, totals) == nics[i]
  {
  }

  /** `_get_adapter_speed`: the totals and an adapter with no known or a zero speed count as
      1000 Mbps. */
  function AdapterSpeed(name: string, speeds: map<string, nat>): (r: real)
    ensures r > 0.0
    ensures name == "All" || name !in speeds || speeds[name] == 0 ==> r == 1000.0
    ensures name != "All" && name in speeds && speeds[name] != 0 ==> r == speeds[name] as real
  {
    if name == "All" then 1000.0
    else if name in speeds && speeds[name] != 0 then speeds[name] as real
    else 1000.0
  }

  // ---------------------------------------------------------------- snapshots and rates

  datatype Rates = Rates(download: real, upload: real, packetsSentPerSec: real, packetsRecvPerSec: real,
                         errorsPerSec: real, dropsPerSec: real)

  const NoRates := Rates(0.0, 0.0, 0.0, 0.0, 0.0, 0.0)

  datatype Snapshot = Snapshot(timestamp: real, adapter: string, counters: Counters, speedMbps: real, rates: Rates)

  /** The rates of `cur` against the previous counters `prev` taken `dt` seconds earlier; all
      zero without a previous snapshot or when no time has passed. Transfer rates are in
      megabits per second: the rate over the interval gives back the bytes moved. */
  function RatesBetween(prev: Option<Snapshot>, cur: Counters, now: real): (r: Rates)
    ensures prev.None? || now - prev.value.timestamp <= 0.0 ==> r == NoRates
    ensures prev.Some? && now - prev.value.timestamp > 0.0 ==>
      (var dt := now - prev.value.timestamp;
       var p := prev.value.counters;
       r.download * (dt * 1000000.0) == ((cur.bytesRecv - p.bytesRecv) * 8) as real
       && r.upload * (dt * 1000000.0) == ((cur.bytesSent - p.bytesSent) * 8) as real
       && r.packetsSentPerSec * dt == (cur.packetsSent - p.packetsSent) as real
       && r.packetsRecvPerSec * dt == (cur.packetsRecv - p.packetsRecv) as real
       && r.errorsPerSec * dt == ((cur.errIn + cur.errOut) - (p.errIn + p.errOut)) as real
       && r.dropsPerSec * dt == ((cur.dropIn + cur.dropOut) - (p.dropIn + p.dropOut)) as real)
  {
    if prev.None? then NoRates
    else
      var dt := now - prev.value.timestamp;
      if dt <= 0.0 then NoRates
      else
        var p := prev.value.counters;
        Rates(((cur.bytesRecv - p.bytesRecv) * 8) as real / (dt * 1000000.0),
              ((cur.bytesSent - p.bytesSent) * 8) as real / (dt * 1000000.0),
              (cur.packetsSent - p.packetsSent) as real / dt,
              (cur.packetsRecv - p.packetsRecv) as real / dt,
              ((cur.errIn + cur.errOut) - (p.errIn + p.errOut)) as real / dt,
              ((cur.dropIn + cur.dropOut) - (p.dropIn + p.dropOut)) as real / dt)
  }

  /** Growing counters give non-negative rates. */
  lemma GrowingCountersNonNegative(prev: Snapshot, cur: Counters, now: real)
    requires now > prev.timestamp
    requires cur.bytesRecv >= prev.counters.bytesRecv && cur.bytesSent >= prev.counters.bytesSent
    ensures RatesBetween(Some(prev), cur, now).download >= 0.0
    ensures RatesBetween(Some(prev), cur, now).upload >= 0.0
  {
  }

  const MaxHistory: nat := 300

  datatype Monitor = Monitor(adapterName: string, history: seq<Snapshot>, last: Option<Snapshot>)

  /** One sample of the monitor loop: the snapshot is taken from the found adapter, rated
      against the previous snapshot, remembered as the new previous one and appended to the
      history, which keeps its newest 300 entries. */
  function Capture(m: Monitor, nics: seq<(string, Counters)>, totals: Counters, speeds: map<string, nat>, now: real)
    : (r: (Monitor, Snapshot))
    ensures r.0.last == Some(r.1) && r.0.adapterName == m.adapterName
    ensures r.0.history == Seqs.TakeLast(m.history + [r.1], MaxHistory)
    ensures |r.0.history| <= MaxHistory && r.0.history[|r.0.history| - 1] == r.1
    ensures r.1.timestamp == now && r.1.rates == RatesBetween(m.last, r.1.counters, now)
  {
    var found := FindAdapter(m.adapterName, nics, totals);
    var s := Snapshot(now, found.0, found.1, AdapterSpeed(found.0, speeds), RatesBetween(m.last, found.1, now));
    var h := Seqs.TakeLast(m.history + [s], MaxHistory);
    (Monitor(m.adapterName, h, Some(s)), s)
  }

  /** `get_history`: the snapshots of the last `seconds` seconds. */
  function Recent(h: seq<Snapshot>, seconds: real, now: real): (r: seq<Snapshot>)
    ensures forall k :: 0 <= k < |r| ==> r[k] in h && r[k].timestamp >= now - seconds
    ensures forall k :: 0 <= k < |h| && h[k].timestamp >= now - seconds ==> h[k] in r
  {
    Seqs.Filter(h, (s: Snapshot) => s.timestamp >= now - seconds)
  }

  function Downloads(rs: seq<Snapshot>): (r: seq<real>)
    ensures |r| == |rs| && forall k :: 0 <= k < |rs| ==> r[k] == rs[k].rates.download
  {
    seq(|rs|, k requires 0 <= k < |rs| => rs[k].rates.download)
  }

  function Uploads(rs: seq<Snapshot>): (r: seq<real>)
    ensures |r| == |rs| && forall k :: 0 <= k < |rs| ==> r[k] == rs[k].rates.upload
  {
    seq(|rs|, k requires 0 <= k < |rs| => rs[k].rates.upload)
  }

  predicate Positive(x: real) { x > 0.0 }

  /** The mean of the strictly positive samples, 0 when there are none: their sum divided by
      their number, between 0 and the largest sample. */
  function PositiveMean(xs: seq<real>): (r: real)
    ensures |Seqs.Filter(xs, Positive)| == 0 ==> r == 0.0
    ensures |Seqs.Filter(xs, Positive)| > 0 ==>
      r == Seqs.Sum(Seqs.Filter(xs, Positive)) / |Seqs.Filter(xs, Positive)| as real
    ensures (forall k :: 0 <= k < |xs| ==> xs[k] <= 0.0) ==> r == 0.0
    ensures 0.0 <= r
    ensures (exists k :: 0 <= k < |xs| && xs[k] > 0.0) ==> r <= Seqs.MaxOr(xs, 0.0)
  {
    var pos := Seqs.Filter(xs, Positive);
    if |pos| == 0 then 0.0
    else
      var m := Seqs.MaxOr(xs, 0.0);
      assert forall k :: 0 <= k < |pos| ==> 0.0 <= pos[k] <= m;
      Seqs.MeanBounded(pos, 0.0, m);
      Seqs.Mean(pos)
  }

  /** A sample that is not strictly positive, an idle second, never moves the average. */
  lemma IdleSampleIgnored(xs: seq<real>, x: real)
    requires x <= 0.0
    ensures PositiveMean(xs + [x]) == PositiveMean(xs)
  {
    Seqs.FilterAppend(xs, [x], Positive);
    assert Seqs.Filter([x], Positive) == [];
    assert Seqs.Filter(xs + [x], Positive) == Seqs.Filter(xs, Positive);
  }

  /** `get_average_rates`: (download, upload) means of the positive samples of the window. */
  function AverageRates(h: seq<Snapshot>, seconds: real, now: real): (r: (real, real))
    ensures 0.0 <= r.0 && 0.0 <= r.1
    ensures Recent(h, seconds, now) == [] ==> r == (0.0, 0.0)
    ensures r.0 == PositiveMean(Downloads(Recent(h, seconds, now)))
    ensures r.1 == PositiveMean(Uploads(Recent(h, seconds, now)))
  {
    var rs := Recent(h, seconds, now);
    if rs == [] then (0.0, 0.0) else (PositiveMean(Downloads(rs)), PositiveMean(Uploads(rs)))
  }

  /** `get_peak_rates`: (download, upload) maxima over the window, 0 for an empty window. */
  function PeakRates(h: seq<Snapshot>, seconds: real, now: real): (r: (real, real))
    ensures Recent(h, seconds, now) == [] ==> r == (0.0, 0.0)
    ensures forall k :: 0 <= k < |Recent(h, seconds, now)| ==>
      Recent(h, seconds, now)[k].rates.download <= r.0 && Recent(h, seconds, now)[k].rates.upload <= r.1
    ensures Recent(h, seconds, now) != [] ==>
      (exists k :: 0 <= k < |Recent(h, seconds, now)| && Recent(h, seconds, now)[k].rates.download == r.0)
    ensures Recent(h, seconds, now) != [] ==>
      (exists k :: 0 <= k < |Recent(h, seconds, now)| && Recent(h, seconds, now)[k].rates.upload == r.1)
  {
    var rs := Recent(h, seconds, now);
    var d := Seqs.MaxOr(Downloads(rs), 0.0);
    var u := Seqs.MaxOr(Uploads(rs), 0.0);
    (d, u)
  }

  /** The average download never exceeds the peak download, unless every sample of the
      window is negative. */
  lemma AverageBelowPeak(h: seq<Snapshot>, seconds: real, now: real)
    requires PeakRates(h, seconds, now).0 >= 0.0
    ensures AverageRates(h, seconds, now).0 <= PeakRates(h, seconds, now).0
  {
    var rs := Recent(h, seconds, now);
    if rs != [] {
      var ds := Downloads(rs);
      if exists k :: 0 <= k < |ds| && ds[k] > 0.0 {
        assert PositiveMean(ds) <= Seqs.MaxOr(ds, 0.0);
      }
    }
  }
}
