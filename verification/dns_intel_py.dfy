/** The Python DNS intelligence service: one metrics record per monitored server, a probe
    history, 24-hour windowed statistics, scores normalised against the cycle's maximum and a
    ranking by score.

    Timestamps are ISO strings in the program and are compared as strings; both sides of every
    comparison come from the same `isoformat()` so string order is time order, and the model
    uses integer seconds. Probes (TCP connect, nslookup) and the random test domain are inputs. */
module DnsIntelPy {
  import opened Wrappers
  import Seqs
  import Ranking
  import opened DnsHistory

  const RetentionSeconds: int := 24 * 3600
  const MaxHistoryEntries: nat := 1000

  /** The live and 24-hour metrics of one server. */
  datatype Metrics = Metrics(
    address: string, name: string,
    pingMs: real, resolveMs: real, successRate: real, lastCheck: Option<int>, isHealthy: bool,
    day: Day, score: real, rank: nat)

  datatype State = State(metrics: seq<Metrics>, history: seq<Entry>)

  function Fresh(address: string, name: string): Metrics {
    Metrics(address, name, 0.0, 0.0, 100.0, None, true, FreshDay, 50.0, 0)
  }

  function Addresses(ms: seq<Metrics>): seq<string> {
    seq(|ms|, k requires 0 <= k < |ms| => ms[k].address)
  }

  function ServerAddresses(servers: seq<(string, string)>): seq<string> {
    seq(|servers|, k requires 0 <= k < |servers| => servers[k].0)
  }

  /** The initial metrics: one fresh record per server, in table order. */
  function InitMetrics(servers: seq<(string, string)>): (r: seq<Metrics>)
    ensures Addresses(r) == ServerAddresses(servers)
    ensures forall k :: 0 <= k < |r| ==> r[k] == Fresh(servers[k].0, servers[k].1)
  {
    seq(|servers|, k requires 0 <= k < |servers| => Fresh(servers[k].0, servers[k].1))
  }

  /** Position of the record for `address`. */
  function Find(ms: seq<Metrics>, address: string): (r: Option<nat>)
    ensures r.Some? ==> r.value < |ms| && ms[r.value].address == address
    ensures r.None? <==> address !in Addresses(ms)
  {
    match Seqs.FirstIndex(ms, (m: Metrics) => m.address == address)
    case None =>
      assert forall k :: 0 <= k < |ms| ==> Addresses(ms)[k] != address;
      None
    case Some(k) =>
      assert Addresses(ms)[k] == address;
      Some(k)
  }

  /** The outcome of probing one server. */
  datatype Probe = Probe(address: string, success: bool, pingMs: real, resolveMs: real)

  /** A failed TCP connect gives a failure with zero times; otherwise success is the
      resolution outcome and both times are reported. */
  function CheckSingle(address: string, pingOk: bool, pingMs: real, resolveOk: bool, resolveMs: real): (r: Probe)
    ensures r.address == address
    ensures r.success <==> pingOk && resolveOk
    ensures !pingOk ==> r.pingMs == 0.0 && r.resolveMs == 0.0
    ensures pingOk ==> r.pingMs == pingMs && r.resolveMs == resolveMs
  {
    if !pingOk then Probe(address, false, 0.0, 0.0)
    else Probe(address, resolveOk, pingMs, resolveMs)
  }

  /** Records one completed probe stamped with the batch timestamp. An address without a
      metrics record raises a lookup error that the batch loop swallows: nothing changes. */
  function Record(st: State, stamp: int, p: Probe): (r: State)
    ensures Addresses(r.metrics) == Addresses(st.metrics)
    ensures p.address !in Addresses(st.metrics) ==> r == st
    ensures p.address in Addresses(st.metrics) ==>
      r.history == st.history + [Entry(stamp, p.address, p.pingMs, p.resolveMs, p.success)]
  {
    match Find(st.metrics, p.address)
    case None => st
    case Some(j) =>
      var m := st.metrics[j];
      var m' := m.(pingMs := p.pingMs, resolveMs := p.resolveMs, isHealthy := p.success, lastCheck := Some(stamp));
      assert Addresses(st.metrics[j := m']) == Addresses(st.metrics);
      State(st.metrics[j := m'], st.history + [Entry(stamp, p.address, p.pingMs, p.resolveMs, p.success)])
  }

  /** A recorded probe overwrites the live fields of its server's first record and no other record. */
  lemma RecordUpdatesOnlyItsServer(st: State, stamp: int, p: Probe, k: nat)
    requires k < |st.metrics|
    ensures var r := Record(st, stamp, p).metrics[k];
      if Find(st.metrics, p.address) == Some(k) then
        r.pingMs == p.pingMs && r.resolveMs == p.resolveMs && r.isHealthy == p.success
        && r.lastCheck == Some(stamp) && r.score == st.metrics[k].score
      else r == st.metrics[k]
  {
  }

  /** Entries the batch adds for the probes whose server is known. */
  function Entries(ms: seq<Metrics>, stamp: int, ps: seq<Probe>): seq<Entry> {
    if |ps| == 0 then []
    else
      (if ps[0].address in Addresses(ms) then [Entry(stamp, ps[0].address, ps[0].pingMs, ps[0].resolveMs, ps[0].success)] else [])
      + Entries(ms, stamp, ps[1..])
  }

  /** Records a batch of probes in completion order. */
  function RecordAll(st: State, stamp: int, ps: seq<Probe>): (r: State)
    ensures Addresses(r.metrics) == Addresses(st.metrics)
    decreases |ps|
  {
    if |ps| == 0 then st else RecordAll(Record(st, stamp, ps[0]), stamp, ps[1..])
  }

  /** Every completed probe of a known server appends exactly one entry, in completion order,
      and nothing else is appended or removed. */
  lemma {:induction false} RecordAllAppends(st: State, stamp: int, ps: seq<Probe>)
    ensures RecordAll(st, stamp, ps).history == st.history + Entries(st.metrics, stamp, ps)
    decreases |ps|
  {
    if |ps| > 0 {
      var st' := Record(st, stamp, ps[0]);
      RecordAllAppends(st', stamp, ps[1..]);
      assert Addresses(st'.metrics) == Addresses(st.metrics);
      EntriesDependOnAddresses(st'.metrics, st.metrics, stamp, ps[1..]);
    }
  }

  lemma {:induction false} EntriesDependOnAddresses(a: seq<Metrics>, b: seq<Metrics>, stamp: int, ps: seq<Probe>)
    requires Addresses(a) == Addresses(b)
    ensures Entries(a, stamp, ps) == Entries(b, stamp, ps)
    decreases |ps|
  {
    if |ps| > 0 {
      EntriesDependOnAddresses(a, b, stamp, ps[1..]);
    }
  }

  /** Loading drops the entries older than the retention window of the load time. */
  function Load(saved: seq<Entry>, now: int): seq<Entry> {
    Prune(saved, now - RetentionSeconds)
  }

  /** The entries written to disk: the newest `MaxHistoryEntries`. The in-memory history
      itself is not shortened. */
  function Saved(history: seq<Entry>): (r: seq<Entry>)
    ensures |r| <= MaxHistoryEntries
    ensures |history| <= MaxHistoryEntries ==> r == history
    ensures forall k :: 0 <= k < |r| ==> r[k] == history[|history| - |r| + k]
  {
    Seqs.PySuffix(history, -(MaxHistoryEntries as int))
  }

  /** The 24-hour statistics of one record; a server with no entries in the window is left
      untouched. */
  function StatsFor(m: Metrics, history: seq<Entry>, cutoff: int): (r: Metrics)
    ensures Window(history, m.address, cutoff) == [] ==> r == m
    ensures r.(day := m.day, successRate := m.successRate) == m
    ensures Window(history, m.address, cutoff) != [] ==>
      r.day == Summarize(m.day, Window(history, m.address, cutoff)) && r.successRate == r.day.uptime
  {
    var es := Window(history, m.address, cutoff);
    if |es| == 0 then m
    else
      var d := Summarize(m.day, es);
      m.(day := d, successRate := d.uptime)
  }

  function CalculateStats(ms: seq<Metrics>, history: seq<Entry>, now: int): (r: seq<Metrics>)
    ensures |r| == |ms| && Addresses(r) == Addresses(ms)
    ensures forall k :: 0 <= k < |ms| ==> r[k] == StatsFor(ms[k], history, now - RetentionSeconds)
  {
    seq(|ms|, k requires 0 <= k < |ms| => StatsFor(ms[k], history, now - RetentionSeconds))
  }

  function PositivePings(ms: seq<Metrics>): seq<real> {
    AvgPings(Seqs.Filter(ms, (m: Metrics) => m.day.avgPing > 0.0))
  }

  function PositiveResolves(ms: seq<Metrics>): seq<real> {
    var f := Seqs.Filter(ms, (m: Metrics) => m.day.avgResolve > 0.0);
    seq(|f|, k requires 0 <= k < |f| => f[k].day.avgResolve)
  }

  function AvgPings(ms: seq<Metrics>): seq<real> {
    seq(|ms|, k requires 0 <= k < |ms| => ms[k].day.avgPing)
  }

  function Clamp0(x: real): real { if x < 0.0 then 0.0 else x }

  /** The composite score of one record against this cycle's maxima. */
  function ScoreOf(m: Metrics, maxPing: real, maxResolve: real): real
    requires maxPing > 0.0 && maxResolve > 0.0
  {
    if m.day.avgPing == 0.0 then 0.0
    else
      var pingScore := Clamp0(100.0 - m.day.avgPing / maxPing * 100.0);
      var resolveScore := Clamp0(100.0 - m.day.avgResolve / maxResolve * 100.0);
      pingScore * 0.40 + resolveScore * 0.30 + m.day.uptime * 0.30
  }

  function ScoreKeys(ms: seq<Metrics>): seq<Ranking.Key> {
    Ranking.DescendingKeys(ms, (m: Metrics) => m.score)
  }

  /** Every record rescored against the cycle's maxima. */
  function Rescore(ms: seq<Metrics>, maxPing: real, maxResolve: real): (r: seq<Metrics>)
    requires maxPing > 0.0 && maxResolve > 0.0
    ensures |r| == |ms| && Addresses(r) == Addresses(ms)
    ensures forall k :: 0 <= k < |ms| ==> r[k] == ms[k].(score := ScoreOf(ms[k], maxPing, maxResolve))
  {
    var r := seq(|ms|, k requires 0 <= k < |ms| => ms[k].(score := ScoreOf(ms[k], maxPing, maxResolve)));
    assert Addresses(r) == Addresses(ms);
    r
  }

  /** Gives record `k` the rank of position `k` in the stable descending order of scores. */
  function AssignRanks(ms: seq<Metrics>): (r: seq<Metrics>)
    ensures |r| == |ms| && Addresses(r) == Addresses(ms)
    ensures forall k :: 0 <= k < |ms| ==> r[k] == ms[k].(rank := Ranking.Ranks(ScoreKeys(ms))[k])
  {
    var ranks := Ranking.Ranks(ScoreKeys(ms));
    var r := seq(|ms|, k requires 0 <= k < |ms| => ms[k].(rank := ranks[k]));
    assert Addresses(r) == Addresses(ms);
    r
  }

  /** Scores every record and ranks them 1..n by descending score. When no server has a
      positive average ping, or none a positive average resolve time, nothing changes. */
  function CalculateScores(ms: seq<Metrics>): (r: seq<Metrics>)
    ensures |r| == |ms| && Addresses(r) == Addresses(ms)
    ensures PositivePings(ms) == [] || PositiveResolves(ms) == [] ==> r == ms
    ensures forall k :: 0 <= k < |ms| && ms[k].day.avgPing == 0.0 && r != ms ==> r[k].score == 0.0
  {
    var pings := PositivePings(ms);
    var resolves := PositiveResolves(ms);
    if pings == [] || resolves == [] then ms
    else
      var maxPing := Seqs.MaxOr(pings, 100.0);
      var maxResolve := Seqs.MaxOr(resolves, 500.0);
      PositiveMaxima(ms);
      AssignRanks(Rescore(ms, maxPing, maxResolve))
  }

  lemma PositiveMaxima(ms: seq<Metrics>)
    ensures PositivePings(ms) != [] ==> Seqs.MaxOr(PositivePings(ms), 100.0) > 0.0
    ensures PositiveResolves(ms) != [] ==> Seqs.MaxOr(PositiveResolves(ms), 500.0) > 0.0
  {
    var pings := PositivePings(ms);
    var resolves := PositiveResolves(ms);
    if pings != [] {
      var f := Seqs.Filter(ms, (m: Metrics) => m.day.avgPing > 0.0);
      assert pings == AvgPings(f);
      assert pings[0] == f[0].day.avgPing > 0.0;
    }
    if resolves != [] {
      var f := Seqs.Filter(ms, (m: Metrics) => m.day.avgResolve > 0.0);
      assert resolves[0] == f[0].day.avgResolve > 0.0;
    }
  }

  /** A record whose averages, uptime and score are within their natural ranges. */
  predicate WellFormed(m: Metrics) {
    m.day.avgPing >= 0.0 && m.day.avgResolve >= 0.0 && 0.0 <= m.day.uptime <= 100.0 && 0.0 <= m.score <= 100.0
  }

  lemma ScoreOfBounded(m: Metrics, maxPing: real, maxResolve: real)
    requires maxPing > 0.0 && maxResolve > 0.0 && WellFormed(m)
    ensures 0.0 <= ScoreOf(m, maxPing, maxResolve) <= 100.0
  {
    assert m.day.avgPing / maxPing >= 0.0;
    assert m.day.avgResolve / maxResolve >= 0.0;
  }

  /** Scores stay in [0, 100]. */
  lemma ScoresBounded(ms: seq<Metrics>)
    requires forall k :: 0 <= k < |ms| ==> WellFormed(ms[k])
    ensures forall k :: 0 <= k < |ms| ==> 0.0 <= CalculateScores(ms)[k].score <= 100.0
  {
    var pings := PositivePings(ms);
    var resolves := PositiveResolves(ms);
    if pings != [] && resolves != [] {
      var maxPing := Seqs.MaxOr(pings, 100.0);
      var maxResolve := Seqs.MaxOr(resolves, 500.0);
      PositiveMaxima(ms);
      forall k | 0 <= k < |ms| ensures 0.0 <= CalculateScores(ms)[k].score <= 100.0 {
        ScoreOfBounded(ms[k], maxPing, maxResolve);
      }
    }
  }

  /** `get_ranking`: all records, stably sorted by descending score. */
  function GetRanking(ms: seq<Metrics>): (r: seq<Metrics>)
    ensures |r| == |ms| && multiset(r) == multiset(ms)
    ensures forall a, b :: 0 <= a < b < |r| ==> r[a].score >= r[b].score
  {
    Ranking.SortDescendingBy(ms, (m: Metrics) => m.score)
  }

  /** `get_best_dns(count)`: Python's `[:count]` of the ranking, so a negative count drops
      records from the end. */
  function GetBestDns(ms: seq<Metrics>, count: int): (r: seq<Metrics>)
    ensures r <= GetRanking(ms)
    ensures 0 <= count ==> |r| == if count <= |ms| then count else |ms|
  {
    Seqs.PyPrefix(GetRanking(ms), count)
  }

  /** After ranking, the rank of every record is its place in `get_ranking`. */
  lemma {:induction false} RanksArePositions(ms: seq<Metrics>)
    ensures forall a :: 0 <= a < |ms| ==> GetRanking(AssignRanks(ms))[a].rank == a + 1
  {
    var r := AssignRanks(ms);
    var keys := ScoreKeys(ms);
    assert ScoreKeys(r) == keys;
    assert Ranking.DescendingKeys(r, (m: Metrics) => m.score) == keys;
    Ranking.StableSortSpec(r, keys);
    forall a | 0 <= a < |ms| ensures GetRanking(r)[a].rank == a + 1 {
      Ranking.RankOfOrder(keys, a);
    }
  }

  /** Ranks form a permutation of 1..n, and a higher score always means a smaller rank. */
  lemma RanksArePermutation(ms: seq<Metrics>)
    ensures forall i :: 0 <= i < |ms| ==> 1 <= AssignRanks(ms)[i].rank <= |ms|
    ensures forall i, j :: 0 <= i < j < |ms| ==> AssignRanks(ms)[i].rank != AssignRanks(ms)[j].rank
    ensures forall i, j :: 0 <= i < |ms| && 0 <= j < |ms| && ms[i].score > ms[j].score ==>
      AssignRanks(ms)[i].rank < AssignRanks(ms)[j].rank
  {
    var keys := ScoreKeys(ms);
    Ranking.RanksArePermutation(keys);
    forall i, j | 0 <= i < |ms| && 0 <= j < |ms| && ms[i].score > ms[j].score
      ensures AssignRanks(ms)[i].rank < AssignRanks(ms)[j].rank
    {
      Ranking.RanksFollowKeys(keys, i, j);
    }
  }

  /** The scoring step either leaves the records alone or ranks them as above. */
  lemma CalculateScoresRanks(ms: seq<Metrics>)
    ensures var r := CalculateScores(ms);
      r == ms || (forall a :: 0 <= a < |ms| ==> GetRanking(r)[a].rank == a + 1)
  {
    var pings := PositivePings(ms);
    var resolves := PositiveResolves(ms);
    if pings != [] && resolves != [] {
      PositiveMaxima(ms);
      RanksArePositions(Rescore(ms, Seqs.MaxOr(pings, 100.0), Seqs.MaxOr(resolves, 500.0)));
    }
  }

  /** One monitoring cycle: record the batch, recompute the window statistics and the scores.
      The result also carries the entries written to disk. */
  function Cycle(st: State, stamp: int, now: int, ps: seq<Probe>): (r: (State, seq<Entry>))
    ensures Addresses(r.0.metrics) == Addresses(st.metrics)
    ensures r.0.history == st.history + Entries(st.metrics, stamp, ps)
    ensures r.1 == Saved(r.0.history)
  {
    var recorded := RecordAll(st, stamp, ps);
    RecordAllAppends(st, stamp, ps);
    var ms := CalculateScores(CalculateStats(recorded.metrics, recorded.history, now));
    (State(ms, recorded.history), Saved(recorded.history))
  }

  /** The initial state: one fresh record per server, and the saved history pruned to the
      retention window (empty when the file is missing or unreadable). */
  function Init(saved: Option<seq<Entry>>, now: int): (r: State)
    ensures Addresses(r.metrics) == ServerAddresses(Servers)
    ensures saved.None? ==> r.history == []
    ensures forall k :: 0 <= k < |r.history| ==> r.history[k].timestamp > now - RetentionSeconds
  {
    State(InitMetrics(Servers), match saved case None => [] case Some(h) => Load(h, now))
  }
}
