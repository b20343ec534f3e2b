/** The per-server DNS health tracker of the Windows client.

    A probe's latency is classified as UP, SLOW or DOWN; the table keeps, per server, the
    last status, the latency, the packet loss and a count of consecutive DOWN samples. The
    table is a sequence in insertion order, which is the order a Python dict iterates in. */
module DnsHealth {
  import opened Wrappers
  import Seqs
  import PingOutput

  const ThresholdGood: real := 30.0
  const ThresholdSlow: real := 80.0
  const ThresholdTimeout: real := 2000.0
  const MaxConsecutiveFailures: nat := 2
  /** Latency recorded for a probe that got no reply. */
  const NoReplyLatency: real := 9999.0
  /** Packet loss reported when the ping output holds no average. */
  const TotalLoss: real := 100.0

  datatype Status = Up | Slow | Down | Unknown

  datatype Health = Health(server: string, status: Status, latencyMs: real, packetLoss: real,
                           lastCheck: int, failures: nat)

  predicate Distinct(t: seq<Health>) {
    forall i, j :: 0 <= i < j < |t| ==> t[i].server != t[j].server
  }

  /** Failures only accumulate while the server is DOWN. */
  predicate Consistent(h: Health) {
    h.failures > 0 ==> h.status == Down
  }

  predicate Valid(t: seq<Health>) {
    Distinct(t) && forall i :: 0 <= i < |t| ==> Consistent(t[i])
  }

  function IndexOf(t: seq<Health>, server: string): (r: Option<nat>)
    ensures r.Some? ==> r.value < |t| && t[r.value].server == server
    ensures r.None? ==> forall i :: 0 <= i < |t| ==> t[i].server != server
  {
    if |t| == 0 then None
    else if t[|t| - 1].server == server then Some(|t| - 1)
    else IndexOf(t[..|t| - 1], server)
  }

  /** `get_status`: the stored record of a server, if it is monitored. */
  function GetStatus(t: seq<Health>, server: string): (r: Option<Health>)
    requires Distinct(t)
    ensures r.Some? <==> exists i :: 0 <= i < |t| && t[i].server == server
    ensures forall i :: 0 <= i < |t| && t[i].server == server ==> r == Some(t[i])
  {
    match IndexOf(t, server)
    case Some(i) => Some(t[i])
    case None => None
  }

  /** Status of a probe: no reply or 2000 ms and above is DOWN, then the 30 ms and 80 ms bands. */
  function Classify(latency: Option<real>): (r: Status)
    ensures r != Unknown
    ensures r == Up <==> latency.Some? && latency.value < ThresholdGood
    ensures r == Slow <==> latency.Some? && ThresholdGood <= latency.value < ThresholdSlow
  {
    if latency.None? || latency.value >= ThresholdTimeout then Down
    else if latency.value < ThresholdGood then Up
    else if latency.value < ThresholdSlow then Slow
    else Down
  }

  function Severity(s: Status): nat {
    match s
    case Up => 0
    case Slow => 1
    case Down => 2
    case Unknown => 3
  }

  /** A slower reply never yields a better status, and no reply is as bad as any reply. */
  lemma ClassifyMonotone(a: real, b: real)
    requires a <= b
    ensures Severity(Classify(Some(a))) <= Severity(Classify(Some(b)))
    ensures Severity(Classify(Some(b))) <= Severity(Classify(None))
  {
  }

  /** `add_dns_server`: a new server starts UNKNOWN with no failures; a known one is left alone. */
  function AddServer(t: seq<Health>, server: string, now: int): (r: seq<Health>)
    requires Valid(t)
    ensures Valid(r)
    ensures GetStatus(t, server).Some? ==> r == t
    ensures GetStatus(t, server).None? ==>
              GetStatus(r, server) == Some(Health(server, Unknown, 0.0, 0.0, now, 0))
    ensures forall s :: s != server ==> GetStatus(r, s) == GetStatus(t, s)
  {
    if IndexOf(t, server).Some? then t
    else
      var r := t + [Health(server, Unknown, 0.0, 0.0, now, 0)];
      assert r[|t|].server == server;
      r
  }

  lemma AddServerIdempotent(t: seq<Health>, server: string, now: int, later: int)
    requires Valid(t)
    ensures AddServer(AddServer(t, server, now), server, later) == AddServer(t, server, now)
  {
  }

  /** `remove_dns_server`: forgets one server and keeps every other record and their order. */
  function RemoveServer(t: seq<Health>, server: string): (r: seq<Health>)
    requires Valid(t)
    ensures Valid(r)
    ensures GetStatus(r, server).None?
    ensures forall s :: s != server ==> GetStatus(r, s) == GetStatus(t, s)
  {
    var r := Seqs.Filter(t, (h: Health) => h.server != server);
    RemoveKeepsOthers(t, server);
    r
  }

  lemma {:induction false} RemoveKeepsOthers(t: seq<Health>, server: string)
    requires Valid(t)
    ensures var r := Seqs.Filter(t, (h: Health) => h.server != server);
            Valid(r) && (forall i :: 0 <= i < |r| ==> r[i].server != server) &&
            (forall h :: h in r <==> h in t && h.server != server)
  {
    var p := (h: Health) => h.server != server;
    if |t| > 0 {
      var rest := t[1..];
      assert Valid(rest) by {
        assert forall i :: 0 <= i < |rest| ==> rest[i] == t[i + 1];
      }
      RemoveKeepsOthers(rest, server);
      assert Seqs.Filter(t, p) == (if p(t[0]) then [t[0]] else []) + Seqs.Filter(rest, p);
      assert forall h :: h in rest ==> h.server != t[0].server;
    }
  }

  datatype CheckOutcome = CheckOutcome(table: seq<Health>, notified: Option<Health>)

  /** `_check_dns_server` after the probe: the record of `server` is replaced, its failure count
      grows by one on DOWN and resets otherwise, and listeners hear of it only when the status
      changed. A server removed while it was being probed is left out. */
  function CheckServer(t: seq<Health>, server: string, latency: Option<real>, loss: real,
                       now: int): (r: CheckOutcome)
    requires Valid(t)
    ensures Valid(r.table) && |r.table| == |t|
    ensures forall s :: s != server ==> GetStatus(r.table, s) == GetStatus(t, s)
    ensures GetStatus(t, server).None? ==> r.table == t && r.notified.None?
    ensures GetStatus(t, server).Some? ==>
              var before := GetStatus(t, server).value;
              var after := GetStatus(r.table, server);
              after.Some? &&
              after.value.status == Classify(latency) &&
              after.value.failures == (if after.value.status == Down then before.failures + 1 else 0) &&
              after.value.latencyMs == latency.GetOr(NoReplyLatency) &&
              after.value.packetLoss == loss && after.value.lastCheck == now &&
              (r.notified.Some? <==> before.status != after.value.status) &&
              (r.notified.Some? ==> r.notified == after)
  {
    var status := Classify(latency);
    match IndexOf(t, server)
    case None => CheckOutcome(t, None)
    case Some(i) =>
      var before := t[i];
      var failures := if status == Down then before.failures + 1 else 0;
      var after := Health(server, status, latency.GetOr(NoReplyLatency), loss, now, failures);
      var table := t[i := after];
      assert forall k :: 0 <= k < |t| && k != i ==> table[k] == t[k];
      assert Distinct(table);
      assert GetStatus(table, server) == Some(after) by {
        assert table[i].server == server;
      }
      CheckOutcome(table, if before.status != status then Some(after) else None)
  }

  /** `is_dns_healthy`: registered, UP or SLOW, and fewer than two consecutive failures. */
  function IsHealthy(t: seq<Health>, server: string): (r: bool)
    requires Distinct(t)
    ensures r <==> GetStatus(t, server).Some? && GetStatus(t, server).value.status in {Up, Slow}
                   && GetStatus(t, server).value.failures < MaxConsecutiveFailures
  {
    match GetStatus(t, server)
    case None => false
    case Some(h) => h.status in {Up, Slow} && h.failures < MaxConsecutiveFailures
  }

  /** In any table the checker maintains the failure bound is implied by the status, so a server
      is healthy exactly when it is monitored and UP or SLOW; UNKNOWN counts as unhealthy. */
  lemma HealthyIffLive(t: seq<Health>, server: string)
    requires Valid(t)
    ensures IsHealthy(t, server) <==>
              GetStatus(t, server).Some? && GetStatus(t, server).value.status in {Up, Slow}
  {
    if GetStatus(t, server).Some? {
      var i := IndexOf(t, server).value;
      assert Consistent(t[i]);
    }
  }

  /** After a DOWN sample a server is unhealthy, whatever its history. */
  lemma DownSampleMakesUnhealthy(t: seq<Health>, server: string, loss: real, now: int)
    requires Valid(t)
    ensures !IsHealthy(CheckServer(t, server, None, loss, now).table, server)
  {
  }

  predicate Live(h: Health) {
    h.status == Up || h.status == Slow
  }

  /** Position of the fastest UP/SLOW record; ties go to the earliest, as a stable sort then
      taking the head does. */
  function FastestIndex(t: seq<Health>): (r: Option<nat>)
    ensures r.Some? ==> r.value < |t| && Live(t[r.value])
    ensures r.Some? ==> forall j :: 0 <= j < |t| && Live(t[j]) ==> t[r.value].latencyMs <= t[j].latencyMs
    ensures r.Some? ==> forall j :: 0 <= j < r.value && Live(t[j]) ==> t[j].latencyMs > t[r.value].latencyMs
    ensures r.None? <==> forall j :: 0 <= j < |t| ==> !Live(t[j])
  {
    if |t| == 0 then None
    else
      var init := t[..|t| - 1];
      var last := t[|t| - 1];
      var best := FastestIndex(init);
      assert forall j :: 0 <= j < |init| ==> init[j] == t[j];
      if Live(last) && (best.None? || last.latencyMs < t[best.value].latencyMs) then Some(|t| - 1)
      else best
  }

  /** `get_fastest_dns`. */
  function Fastest(t: seq<Health>): (r: Option<string>)
    ensures r.None? <==> forall j :: 0 <= j < |t| ==> !Live(t[j])
    ensures r.Some? ==> exists k :: 0 <= k < |t| && Live(t[k]) && t[k].server == r.value &&
                          forall j :: 0 <= j < |t| && Live(t[j]) ==> t[k].latencyMs <= t[j].latencyMs
  {
    match FastestIndex(t)
    case Some(k) => Some(t[k].server)
    case None => None
  }

  /** `_ping_server`: `None` stands for a timed-out or failed ping command. Without an average
      line the probe counts as lost (no latency, 100 % loss); without a loss figure the loss is 0. */
  function ParsePing(output: Option<string>): (r: (Option<real>, real))
    ensures r.0.None? ==> r.1 == TotalLoss
    ensures r.0.None? <==> output.None? || PingOutput.SearchAverage(output.value).None?
    ensures r.0.Some? ==> r.0.value == PingOutput.SearchAverage(output.value).value as real
    ensures r.0.Some? ==> r.1 == PingOutput.SearchLoss(output.value).GetOr(0) as real
  {
    match output
    case None => (None, TotalLoss)
    case Some(s) =>
      match PingOutput.SearchAverage(s)
      case None => (None, TotalLoss)
      case Some(avg) => (Some(avg as real), PingOutput.SearchLoss(s).GetOr(0) as real)
  }

  /** A ping that printed "Average = N ms" is recorded with latency N and no loss. */
  lemma ParseSummaryLine(n: nat)
    ensures ParsePing(Some(PingOutput.AverageLine(n))) == (Some(n as real), 0.0)
  {
    var line := PingOutput.AverageLine(n);
    PingOutput.AverageLineParses(n);
    PingOutput.AverageLineHasNoLoss(n);
    assert PingOutput.SearchAverage(line) == Some(n);
    assert PingOutput.SearchLoss(line).GetOr(0) == 0;
  }

  /** Output without an average line, or no output at all, makes the probe a DOWN sample. */
  lemma UnparsedOutputIsDown(output: Option<string>)
    requires output.None? || PingOutput.SearchAverage(output.value).None?
    ensures Classify(ParsePing(output).0) == Down
  {
  }
}
