/** The desktop (Rust) DNS intelligence service: sequential probes of every server, a
    history pruned by age and capped in length after every append, threshold-based scores,
    a failure-triggered failover of the "current best" server, and the best-server update.

    The metrics map is a `HashMap`; its iteration order, which decides ties in the sorts, is
    the order of the `metrics` sequence here. Clocks are `now`/`timestamp` parameters in whole
    seconds; the TCP connect and nslookup results are inputs. */
module DnsIntelRs {
  import opened Wrappers
  import Seqs
  import Ranking
  import Text
  import opened DnsHistory

  /** `DnsIntelConfig`. */
  datatype Config = Config(
    checkIntervalSecs: nat, retentionHours: nat, maxHistoryEntries: nat, parallelWorkers: nat,
    goodMs: real, slowMs: real, maxConsecutiveFailures: nat, cooldownSecs: nat)

  /** `DnsIntelConfig::default()`, the configuration the service is built with. */
  const DefaultConfig: Config := Config(30, 24, 1000, 4, 30.0, 80.0, 2, 30)

  /** Score thresholds the scoring arithmetic is defined for. */
  predicate Thresholds(c: Config) {
    0.0 < c.goodMs < c.slowMs
  }

  lemma DefaultThresholds()
    ensures Thresholds(DefaultConfig)
  {
  }

  datatype Metrics = Metrics(
    address: string, name: string,
    pingMs: real, resolveMs: real, successRate: real, lastCheck: nat, isHealthy: bool,
    day: Day, score: real, rank: nat, consecutiveFailures: nat)

  datatype FailoverEvent = FailoverEvent(timestamp: int, fromDns: string, toDns: string, reason: string, success: bool)

  datatype State = State(
    metrics: seq<Metrics>, history: seq<Entry>, failovers: seq<FailoverEvent>,
    running: bool, lastFailover: Option<int>, currentBest: Option<string>, autoFailover: bool)

  /** `DnsMetrics::new`: never checked, healthy, score 50, no failures. */
  function NewMetrics(address: string, name: string): (r: Metrics)
    ensures r.address == address && r.name == name && r.isHealthy && r.consecutiveFailures == 0
    ensures r.day == FreshDay && r.score == 50.0 && r.rank == 0 && r.lastCheck == 0
  {
    Metrics(address, name, 0.0, 0.0, 100.0, 0, true, FreshDay, 50.0, 0, 0)
  }

  function Addresses(ms: seq<Metrics>): seq<string> {
    seq(|ms|, k requires 0 <= k < |ms| => ms[k].address)
  }

  /** `DnsIntelligence::new`: one record per server, empty logs, stopped, auto-failover on. */
  function NewState(): (r: State)
    ensures |r.metrics| == |Servers|
    ensures forall k :: 0 <= k < |Servers| ==> r.metrics[k] == NewMetrics(Servers[k].0, Servers[k].1)
    ensures r.history == [] && r.failovers == [] && !r.running && r.currentBest.None? && r.autoFailover
  {
    State(seq(|Servers|, k requires 0 <= k < |Servers| => NewMetrics(Servers[k].0, Servers[k].1)),
          [], [], false, None, None, true)
  }

  /** `start`: a running service is left alone. */
  function Start(st: State): (r: State)
    ensures r.running && r.(running := st.running) == st
  {
    if st.running then st else st.(running := true)
  }

  lemma StartIdempotent(st: State)
    ensures Start(Start(st)) == Start(st)
  {
  }

  function Stop(st: State): (r: State)
    ensures !r.running && r.(running := st.running) == st
  {
    st.(running := false)
  }

  /** Position of the record for `address` (the map lookup). */
  function Find(ms: seq<Metrics>, address: string): (r: Option<nat>)
    ensures r.Some? ==> r.value < |ms| && ms[r.value].address == address
    ensures r.None? ==> forall k :: 0 <= k < |ms| ==> ms[k].address != address
  {
    Seqs.FirstIndex(ms, (m: Metrics) => m.address == address)
  }

  const TestDomains: seq<string> := ["google.com", "cloudflare.com", "microsoft.com", "amazon.com"]

  /** The test domain rotates with the clock. */
  function TestDomain(timestamp: nat): (r: string)
    ensures r in TestDomains
  {
    TestDomains[timestamp % |TestDomains|]
  }

  /** The outcome of probing one server: (success, ping ms, resolve ms). */
  datatype Outcome = Outcome(success: bool, pingMs: real, resolveMs: real)

  /** `check_single_dns`. No TCP connection is a failure with zero times. Otherwise the probe
      succeeds; a real resolution is attempted only when the clock is divisible by 5, and
      otherwise, or when it fails, the resolve time is estimated as 1.5 times the ping. */
  function CheckSingle(ping: Option<real>, timestamp: nat, resolved: Option<real>): (r: Outcome)
    ensures r.success <==> ping.Some?
    ensures ping.None? ==> r == Outcome(false, 0.0, 0.0)
    ensures ping.Some? ==> r.pingMs == ping.value
    ensures ping.Some? && timestamp % 5 == 0 && resolved.Some? ==> r.resolveMs == resolved.value
    ensures ping.Some? && (timestamp % 5 != 0 || resolved.None?) ==> r.resolveMs == ping.value * 1.5
  {
    match ping
    case None => Outcome(false, 0.0, 0.0)
    case Some(p) =>
      var resolveMs := if timestamp % 5 == 0 then resolved.GetOr(p * 1.5) else p * 1.5;
      Outcome(true, p, resolveMs)
  }

  /** `u64::saturating_sub`. */
  function SatSub(a: nat, b: nat): (r: nat)
    ensures a >= b ==> r == a - b
    ensures a < b ==> r == 0
  {
    if a >= b then a - b else 0
  }

  function Cutoff(timestamp: nat, c: Config): nat {
    SatSub(timestamp, c.retentionHours * 3600)
  }

  /** The history after appending one entry: entries at or before the cutoff are dropped,
      then the oldest ones until at most `maxHistoryEntries` remain. */
  function AppendEntry(history: seq<Entry>, e: Entry, timestamp: nat, c: Config): (r: seq<Entry>)
    ensures |r| <= c.maxHistoryEntries
    ensures forall k :: 0 <= k < |r| ==> r[k].timestamp > Cutoff(timestamp, c)
    ensures forall k :: 0 <= k < |r| ==> r[k] in history + [e]
    ensures r == Seqs.TakeLast(Prune(history + [e], Cutoff(timestamp, c)), c.maxHistoryEntries)
  {
    var kept := Prune(history + [e], Cutoff(timestamp, c));
    Seqs.TakeLast(kept, c.maxHistoryEntries)
  }

  /** The new entry is always the last one kept, unless it is itself outside the window or
      the cap is zero. */
  lemma AppendKeepsNewest(history: seq<Entry>, e: Entry, timestamp: nat, c: Config)
    requires e.timestamp > Cutoff(timestamp, c) && c.maxHistoryEntries > 0
    ensures var r := AppendEntry(history, e, timestamp, c); |r| > 0 && r[|r| - 1] == e
  {
    var p := (x: Entry) => x.timestamp > Cutoff(timestamp, c);
    Seqs.FilterAppend(history, [e], p);
    assert Seqs.Filter([e], p) == [e];
  }

  /** In-window entries survive an append as long as the window holds fewer than the cap. */
  lemma AppendKeepsWindowUnderCap(history: seq<Entry>, e: Entry, timestamp: nat, c: Config, k: nat)
    requires k < |history| && history[k].timestamp > Cutoff(timestamp, c)
    requires |Prune(history + [e], Cutoff(timestamp, c))| <= c.maxHistoryEntries
    ensures history[k] in AppendEntry(history, e, timestamp, c)
  {
    assert (history + [e])[k] == history[k];
  }

  /** One iteration of the probe loop for `address`: its record (if any) takes the outcome,
      and an entry is appended to the history in every case. */
  function ProbeOne(st: State, timestamp: nat, address: string, o: Outcome, c: Config): (r: State)
    ensures Addresses(r.metrics) == Addresses(st.metrics)
    ensures r.history == AppendEntry(st.history, Entry(timestamp, address, o.pingMs, o.resolveMs, o.success), timestamp, c)
    ensures r.(metrics := st.metrics, history := st.history) == st
  {
    var h := AppendEntry(st.history, Entry(timestamp, address, o.pingMs, o.resolveMs, o.success), timestamp, c);
    match Find(st.metrics, address)
    case None => st.(history := h)
    case Some(j) =>
      var m := st.metrics[j];
      var m' := m.(pingMs := o.pingMs, resolveMs := o.resolveMs, isHealthy := o.success, lastCheck := timestamp,
                   consecutiveFailures := if o.success then 0 else m.consecutiveFailures + 1);
      assert Addresses(st.metrics[j := m']) == Addresses(st.metrics);
      st.(metrics := st.metrics[j := m'], history := h)
  }

  /** A probe marks its server healthy exactly when it succeeded; a success resets the failure
      streak and a failure extends it by one. No other record changes. */
  lemma ProbeUpdatesStreak(st: State, timestamp: nat, address: string, o: Outcome, c: Config, k: nat)
    requires k < |st.metrics|
    ensures var m := st.metrics[k];
      var m' := ProbeOne(st, timestamp, address, o, c).metrics[k];
      if Find(st.metrics, address) == Some(k) then
        m'.isHealthy == o.success && m'.lastCheck == timestamp
        && m'.consecutiveFailures == (if o.success then 0 else m.consecutiveFailures + 1)
      else m' == m
  {
  }

  /** A failure streak implies an unhealthy record. */
  predicate StreakConsistent(ms: seq<Metrics>) {
    forall k :: 0 <= k < |ms| && ms[k].consecutiveFailures > 0 ==> !ms[k].isHealthy
  }

  lemma ProbeKeepsStreakConsistent(st: State, timestamp: nat, address: string, o: Outcome, c: Config)
    requires StreakConsistent(st.metrics)
    ensures StreakConsistent(ProbeOne(st, timestamp, address, o, c).metrics)
  {
    var r := ProbeOne(st, timestamp, address, o, c);
    forall k | 0 <= k < |r.metrics| && r.metrics[k].consecutiveFailures > 0
      ensures !r.metrics[k].isHealthy
    {
      ProbeUpdatesStreak(st, timestamp, address, o, c, k);
    }
  }

  /** `check_all_dns_static`: probes every server in table order with one timestamp. */
  function ProbeAll(st: State, timestamp: nat, outcomes: seq<(string, Outcome)>, c: Config): (r: State)
    ensures Addresses(r.metrics) == Addresses(st.metrics)
    ensures |r.history| <= c.maxHistoryEntries || r.history == st.history
    ensures r.(metrics := st.metrics, history := st.history) == st
    decreases |outcomes|
  {
    if |outcomes| == 0 then st
    else ProbeAll(ProbeOne(st, timestamp, outcomes[0].0, outcomes[0].1, c), timestamp, outcomes[1..], c)
  }

  lemma {:induction false} ProbeAllKeepsStreakConsistent(st: State, timestamp: nat, outcomes: seq<(string, Outcome)>, c: Config)
    requires StreakConsistent(st.metrics)
    ensures StreakConsistent(ProbeAll(st, timestamp, outcomes, c).metrics)
    decreases |outcomes|
  {
    if |outcomes| > 0 {
      ProbeKeepsStreakConsistent(st, timestamp, outcomes[0].0, outcomes[0].1, c);
      ProbeAllKeepsStreakConsistent(ProbeOne(st, timestamp, outcomes[0].0, outcomes[0].1, c), timestamp, outcomes[1..], c);
    }
  }

  /** The ping sub-score: 100 up to the good threshold, linear from 100 down to 60 up to the
      slow threshold, then from 60 down to 0 at twice the slow threshold, never negative. */
  function PingScore(avg: real, c: Config): (r: real)
    requires Thresholds(c)
    ensures 0.0 <= r <= 100.0
    ensures avg <= c.goodMs ==> r == 100.0
    ensures c.goodMs < avg <= c.slowMs ==> 60.0 <= r <= 100.0
    ensures c.slowMs < avg ==> 0.0 <= r <= 60.0
    ensures 2.0 * c.slowMs <= avg ==> r == 0.0
  {
    var raw := RawPingScore(avg, c);
    if raw < 0.0 then 0.0 else raw
  }

  /** The piecewise curve before the floor at zero. */
  function RawPingScore(avg: real, c: Config): (r: real)
    requires Thresholds(c)
    ensures r <= 100.0
    ensures avg <= c.goodMs ==> r == 100.0
    ensures c.goodMs < avg <= c.slowMs ==> 60.0 <= r <= 100.0
    ensures c.slowMs < avg ==> 0.0 <= r <= 60.0
    ensures 2.0 * c.slowMs <= avg ==> r == 0.0
  {
    if avg <= c.goodMs then 100.0
    else if avg <= c.slowMs then
      RatioBetween(avg - c.goodMs, c.slowMs - c.goodMs);
      100.0 - (avg - c.goodMs) / (c.slowMs - c.goodMs) * 40.0
    else
      AtLeastOne(avg - c.slowMs, c.slowMs);
      RatioBetween(avg - c.slowMs, c.slowMs);
      60.0 - Min1((avg - c.slowMs) / c.slowMs) * 60.0
  }

  function Min1(x: real): (r: real)
    ensures r <= 1.0 && r <= x && (r == x || r == 1.0)
  {
    if x < 1.0 then x else 1.0
  }

  lemma RatioBetween(a: real, b: real)
    requires 0.0 < a && 0.0 < b
    ensures 0.0 < a / b && (a <= b ==> a / b <= 1.0)
  {
  }

  lemma AtLeastOne(a: real, b: real)
    requires 0.0 < b
    ensures b <= a ==> a / b >= 1.0
  {
  }

  /** A slower average never scores better. */
  lemma PingScoreMonotone(a: real, b: real, c: Config)
    requires Thresholds(c) && a <= b
    ensures PingScore(b, c) <= PingScore(a, c)
  {
    var g, s := c.goodMs, c.slowMs;
    if g < a <= s && g < b <= s {
      DivMonotone(a - g, b - g, s - g);
    } else if s < a && s < b {
      DivMonotone(a - s, b - s, s);
    }
  }

  lemma DivMonotone(x: real, y: real, d: real)
    requires x <= y && d > 0.0
    ensures x / d <= y / d
  {
  }

  /** The resolve sub-score: 100 at zero, falling linearly to 0 at three times the slow
      threshold. */
  function ResolveScore(avg: real, c: Config): (r: real)
    requires Thresholds(c)
    ensures 0.0 <= r
    ensures avg >= 0.0 ==> r <= 100.0
    ensures avg >= 3.0 * c.slowMs ==> r == 0.0
  {
    var maxResolve := c.slowMs * 3.0;
    AtLeastOne(avg, maxResolve);
    var x := 1.0 - avg / maxResolve;
    (if x < 0.0 then 0.0 else x) * 100.0
  }

  /** The composite score: 0 for a server without an average ping, else 45/25/30 weights. */
  function ScoreOf(m: Metrics, c: Config): real
    requires Thresholds(c)
  {
    if m.day.avgPing == 0.0 then 0.0
    else PingScore(m.day.avgPing, c) * 0.45 + ResolveScore(m.day.avgResolve, c) * 0.25 + m.day.uptime * 0.30
  }

  predicate WellFormed(m: Metrics) {
    m.day.avgResolve >= 0.0 && 0.0 <= m.day.uptime <= 100.0
  }

  lemma ScoreBounded(m: Metrics, c: Config)
    requires Thresholds(c) && WellFormed(m)
    ensures 0.0 <= ScoreOf(m, c) <= 100.0
  {
  }

  function ScoreKeys(ms: seq<Metrics>): seq<Ranking.Key> {
    Ranking.DescendingKeys(ms, (m: Metrics) => m.score)
  }

  /** The window statistics of one record; a record without entries keeps its statistics. */
  function StatsFor(m: Metrics, history: seq<Entry>, cutoff: int): (r: Metrics)
    ensures Window(history, m.address, cutoff) == [] ==> r == m
    ensures r.(day := m.day, successRate := m.successRate) == m
    ensures Window(history, m.address, cutoff) != [] ==>
      r.day == Summarize(m.day, Window(history, m.address, cutoff)) && r.successRate == r.day.uptime
  {
    var es := Window(history, m.address, cutoff);
    if |es| == 0 then m
    else
      var d := Summarize(m.day, es);
      m.(day := d, successRate := d.uptime)
  }

  /** Window statistics and a fresh score for every record. */
  function Rescore(ms: seq<Metrics>, history: seq<Entry>, cutoff: int, c: Config): (r: seq<Metrics>)
    requires Thresholds(c)
    ensures |r| == |ms|
    ensures forall k :: 0 <= k < |ms| ==>
      (r[k] == StatsFor(ms[k], history, cutoff).(score := ScoreOf(StatsFor(ms[k], history, cutoff), c)))
  {
    seq(|ms|, k requires 0 <= k < |ms| =>
      var s := StatsFor(ms[k], history, cutoff);
      s.(score := ScoreOf(s, c)))
  }

  /** Gives record `k` the rank of position `k` in the stable descending order of scores. */
  function AssignRanks(ms: seq<Metrics>): (r: seq<Metrics>)
    ensures |r| == |ms|
    ensures forall k :: 0 <= k < |ms| ==> r[k] == ms[k].(rank := Ranking.Ranks(ScoreKeys(ms))[k])
  {
    var ranks := Ranking.Ranks(ScoreKeys(ms));
    seq(|ms|, k requires 0 <= k < |ms| => ms[k].(rank := ranks[k]))
  }

  /** `calculate_scores_static`: window statistics for every record, then every score, then
      ranks 1..n by descending score. */
  function CalculateScores(ms: seq<Metrics>, history: seq<Entry>, now: nat, c: Config): (r: seq<Metrics>)
    requires Thresholds(c)
    ensures |r| == |ms| && Addresses(r) == Addresses(ms)
    ensures forall k :: 0 <= k < |ms| ==>
      (r[k].isHealthy == ms[k].isHealthy && r[k].consecutiveFailures == ms[k].consecutiveFailures)
    ensures forall k :: 0 <= k < |ms| ==> r[k].score == ScoreOf(StatsFor(ms[k], history, Cutoff(now, c)), c)
  {
    var r := AssignRanks(Rescore(ms, history, Cutoff(now, c), c));
    assert Addresses(r) == Addresses(ms);
    r
  }

  /** Ranks are a permutation of 1..n and a higher score means a smaller rank. */
  lemma ScoresRanked(ms: seq<Metrics>, history: seq<Entry>, now: nat, c: Config)
    requires Thresholds(c)
    ensures var r := CalculateScores(ms, history, now, c);
      (forall i :: 0 <= i < |r| ==> 1 <= r[i].rank <= |r|)
      && (forall i, j :: 0 <= i < j < |r| ==> r[i].rank != r[j].rank)
      && (forall i, j :: 0 <= i < |r| && 0 <= j < |r| && r[i].score > r[j].score ==> r[i].rank < r[j].rank)
  {
    var r := CalculateScores(ms, history, now, c);
    var keys := ScoreKeys(Rescore(ms, history, Cutoff(now, c), c));
    Ranking.RanksArePermutation(keys);
    forall i, j | 0 <= i < |r| && 0 <= j < |r| && r[i].score > r[j].score
      ensures r[i].rank < r[j].rank
    {
      Ranking.RanksFollowKeys(keys, i, j);
    }
  }

  /** Scoring preserves the streak invariant. */
  lemma ScoresKeepStreakConsistent(ms: seq<Metrics>, history: seq<Entry>, now: nat, c: Config)
    requires Thresholds(c) && StreakConsistent(ms)
    ensures StreakConsistent(CalculateScores(ms, history, now, c))
  {
  }

  /** Failover candidates: healthy servers other than `current`, best score first (the
      first of equal scores in map order). */
  function Candidates(ms: seq<Metrics>, current: string): (r: seq<Metrics>)
    ensures forall k :: 0 <= k < |r| ==> r[k] in ms && r[k].isHealthy && r[k].address != current
    ensures forall k :: 0 <= k < |ms| && ms[k].isHealthy && ms[k].address != current ==> ms[k] in r
    ensures forall a, b :: 0 <= a < b < |r| ==> r[a].score >= r[b].score
  {
    var p := (m: Metrics) => m.isHealthy && m.address != current;
    var f := Seqs.Filter(ms, p);
    var r := Ranking.SortDescendingBy(f, (m: Metrics) => m.score);
    Seqs.SameMembers(r, f);
    r
  }

  /** The first candidate has the best score among the other healthy servers. */
  lemma FirstCandidateIsBest(ms: seq<Metrics>, current: string, k: nat)
    requires Candidates(ms, current) != [] && k < |ms| && ms[k].isHealthy && ms[k].address != current
    ensures Candidates(ms, current)[0].score >= ms[k].score
  {
    var r := Candidates(ms, current);
    var j :| 0 <= j < |r| && r[j] == ms[k];
    if j > 0 {
      assert r[0].score >= r[j].score;
    }
  }

  function Reason(failures: nat): string {
    Text.NatToString(failures) + " consecutive failures"
  }

  /** Whether the cooldown since the last failover is still running at `now`. */
  predicate InCooldown(st: State, now: int, c: Config) {
    st.lastFailover.Some? && now - st.lastFailover.value < c.cooldownSecs
  }

  /** The server a failover moves to: the best-scored healthy server other than `current`,
      or `None` when there is none. */
  function Replacement(ms: seq<Metrics>, current: string): (r: Option<Metrics>)
    ensures r.None? <==> forall k :: 0 <= k < |ms| ==> !ms[k].isHealthy || ms[k].address == current
    ensures r.Some? ==> r.value in ms && r.value.isHealthy && r.value.address != current
    ensures r.Some? ==> forall k :: (0 <= k < |ms| && ms[k].isHealthy && ms[k].address != current) ==>
      ms[k].score <= r.value.score
  {
    var cands := Candidates(ms, current);
    if cands == [] then None
    else
      forall k | 0 <= k < |ms| && ms[k].isHealthy && ms[k].address != current
        ensures ms[k].score <= cands[0].score
      {
        FirstCandidateIsBest(ms, current, k);
      }
      Some(cands[0])
  }

  /** The failover decision outside cooldown: the failing current best, the record that
      replaces it and the failure count, or `None` when there is no current best, it has no
      record, its streak is below the limit, or no other server is healthy. */
  function Decision(ms: seq<Metrics>, currentBest: Option<string>, c: Config): (r: Option<(string, Metrics, nat)>)
    ensures r.Some? ==> (currentBest == Some(r.value.0) && Find(ms, r.value.0).Some?
      && ms[Find(ms, r.value.0).value].consecutiveFailures == r.value.2 >= c.maxConsecutiveFailures)
    ensures r.Some? ==> r.value.1 in ms && r.value.1.isHealthy && r.value.1.address != r.value.0
    ensures r.Some? ==> forall k :: (0 <= k < |ms| && ms[k].isHealthy && ms[k].address != r.value.0) ==>
      ms[k].score <= r.value.1.score
    ensures (r.None? && currentBest.Some? && Find(ms, currentBest.value).Some?
      && ms[Find(ms, currentBest.value).value].consecutiveFailures >= c.maxConsecutiveFailures) ==>
      forall k :: 0 <= k < |ms| ==> !ms[k].isHealthy || ms[k].address == currentBest.value
  {
    match currentBest
    case None => None
    case Some(cur) =>
      match Find(ms, cur)
      case None => None
      case Some(j) =>
        if ms[j].consecutiveFailures < c.maxConsecutiveFailures then None
        else
          match Replacement(ms, cur)
          case None => None
          case Some(target) => Some((cur, target, ms[j].consecutiveFailures))
  }

  /** `check_failover_static`: nothing happens in cooldown or without a decision; otherwise
      one event is recorded, the failover time is set and the chosen server becomes the
      current best. */
  function CheckFailover(st: State, now: int, c: Config): (r: State)
    ensures r.(failovers := st.failovers, lastFailover := st.lastFailover, currentBest := st.currentBest) == st
    ensures InCooldown(st, now, c) || Decision(st.metrics, st.currentBest, c).None? ==> r == st
    ensures (!InCooldown(st, now, c) && Decision(st.metrics, st.currentBest, c).Some?) ==>
      var d := Decision(st.metrics, st.currentBest, c).value;
      r.failovers == st.failovers + [FailoverEvent(now, d.0, d.1.address, Reason(d.2), true)]
      && r.lastFailover == Some(now) && r.currentBest == Some(d.1.address)
  {
    if InCooldown(st, now, c) then st
    else match Decision(st.metrics, st.currentBest, c)
      case None => st
      case Some((cur, target, n)) =>
        st.(failovers := st.failovers + [FailoverEvent(now, cur, target.address, Reason(n), true)],
            lastFailover := Some(now), currentBest := Some(target.address))
  }

  /** Rust's `max_by` over the healthy records: the position of a maximal score, the last one
      among equals; `None` when no record is healthy. */
  function BestHealthy(ms: seq<Metrics>): (r: Option<nat>)
    ensures r.None? <==> forall k :: 0 <= k < |ms| ==> !ms[k].isHealthy
    ensures r.Some? ==> r.value < |ms| && ms[r.value].isHealthy
    ensures r.Some? ==> forall k :: 0 <= k < |ms| && ms[k].isHealthy ==> ms[k].score <= ms[r.value].score
    ensures r.Some? ==> forall k :: r.value < k < |ms| && ms[k].isHealthy ==> ms[k].score < ms[r.value].score
  {
    if |ms| == 0 then None
    else
      var b := BestHealthy(ms[..|ms| - 1]);
      var last := ms[|ms| - 1];
      if !last.isHealthy then b
      else if b.None? || ms[b.value].score <= last.score then Some(|ms| - 1)
      else b
  }

  /** `update_best_dns_static`: the best healthy server becomes the current best; with no
      healthy server the current best is kept. */
  function UpdateBest(st: State): (r: State)
    ensures r.(currentBest := st.currentBest) == st
    ensures (forall k :: 0 <= k < |st.metrics| ==> !st.metrics[k].isHealthy) ==> r == st
    ensures BestHealthy(st.metrics).Some? ==>
      r.currentBest == Some(st.metrics[BestHealthy(st.metrics).value].address)
  {
    match BestHealthy(st.metrics)
    case None => st
    case Some(i) => st.(currentBest := Some(st.metrics[i].address))
  }

  /** One pass of the service loop: probe, score, failover if enabled, then update the best. */
  function Iterate(st: State, timestamp: nat, outcomes: seq<(string, Outcome)>, now: nat, c: Config): (r: State)
    requires Thresholds(c)
    ensures Addresses(r.metrics) == Addresses(st.metrics)
    ensures !st.autoFailover ==> r.failovers == st.failovers
  {
    var probed := ProbeAll(st, timestamp, outcomes, c);
    var scored := probed.(metrics := CalculateScores(probed.metrics, probed.history, now, c));
    var failed := if st.autoFailover then CheckFailover(scored, now, c) else scored;
    UpdateBest(failed)
  }

  /** The streak invariant holds after every pass. */
  lemma IterateKeepsStreakConsistent(st: State, timestamp: nat, outcomes: seq<(string, Outcome)>, now: nat, c: Config)
    requires Thresholds(c) && StreakConsistent(st.metrics)
    ensures StreakConsistent(Iterate(st, timestamp, outcomes, now, c).metrics)
  {
    ProbeAllKeepsStreakConsistent(st, timestamp, outcomes, c);
    var probed := ProbeAll(st, timestamp, outcomes, c);
    ScoresKeepStreakConsistent(probed.metrics, probed.history, now, c);
  }

  /** A server with a failure streak is never chosen as the best. */
  lemma BestHasNoStreak(ms: seq<Metrics>)
    requires StreakConsistent(ms) && BestHealthy(ms).Some?
    ensures ms[BestHealthy(ms).value].consecutiveFailures == 0
  {
  }

  /** `get_all_metrics`: every record, ascending by rank. */
  function AllMetrics(ms: seq<Metrics>): (r: seq<Metrics>)
    ensures |r| == |ms| && multiset(r) == multiset(ms)
    ensures forall a, b :: 0 <= a < b < |r| ==> r[a].rank <= r[b].rank
  {
    Ranking.SortAscendingBy(ms, (m: Metrics) => m.rank as real)
  }

  /** `get_best_dns(count)`: the first `count` of `get_all_metrics`. */
  function BestDns(ms: seq<Metrics>, count: nat): (r: seq<Metrics>)
    ensures r <= AllMetrics(ms)
    ensures |r| == if count <= |ms| then count else |ms|
  {
    Seqs.Take(AllMetrics(ms), count)
  }

  datatype Summary = Summary(bestDns: seq<Metrics>, totalMonitored: nat, historyEntries: nat,
                             autoFailover: bool, currentBest: Option<string>)

  /** `get_summary`: the first three servers by rank (all of them when there are fewer), the
      sizes of the state, the auto-failover switch and the current best server. */
  function GetSummary(st: State): (r: Summary)
    ensures r.bestDns <= AllMetrics(st.metrics)
    ensures |r.bestDns| == if |st.metrics| <= 3 then |st.metrics| else 3
    ensures r.totalMonitored == |st.metrics| && r.historyEntries == |st.history|
    ensures r.autoFailover == st.autoFailover && r.currentBest == st.currentBest
  {
    Summary(BestDns(st.metrics, 3), |st.metrics|, |st.history|, st.autoFailover, st.currentBest)
  }
}
