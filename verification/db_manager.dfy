/** The local document store: network tests, settings (with the cached optimization state)
    and real-time metrics, each a table of documents with a unique document id.

    Timestamps are the ISO strings of naive local time, which compare in time order; they are
    modelled as the seconds they denote. */
module DbManager {
  import opened Wrappers
  import Seqs
  import Ranking

  // ---------------------------------------------------------------- settings

  /** A stored `detected_at`: absent, not an ISO timestamp, or a time. */
  datatype Stamp = NoStamp | BadStamp | Stamp(at: int)

  datatype Value =
    | Str(s: string)
    | Flag(b: bool)
    | Cache(state: Option<map<string, bool>>, detectedAt: Stamp)

  datatype Setting = Setting(key: string, value: Value, updatedAt: int)

  const CacheKey := "optimization_state_cache"
  const CacheMaxAge := 3600

  /** At most one document per key. */
  predicate UniqueKeys(table: seq<Setting>) {
    forall i, j :: 0 <= i < j < |table| ==> table[i].key != table[j].key
  }

  /** `get_setting`: the value of the first document with the key, else the default. */
  function GetSetting(table: seq<Setting>, key: string, default: Value): (r: Value)
    ensures (forall k :: 0 <= k < |table| ==> table[k].key != key) ==> r == default
    ensures (exists k :: 0 <= k < |table| && table[k].key == key) ==>
      exists k :: 0 <= k < |table| && table[k].key == key && r == table[k].value
  {
    if table == [] then default
    else if table[0].key == key then table[0].value
    else
      var r := GetSetting(table[1..], key, default);
      assert forall k :: 1 <= k < |table| ==> table[1..][k - 1] == table[k];
      r
  }

  /** Every document with the key, replaced by `s`. */
  function Overwrite(table: seq<Setting>, key: string, s: Setting): (r: seq<Setting>)
    ensures |r| == |table|
    ensures forall k :: 0 <= k < |r| ==> r[k] == if table[k].key == key then s else table[k]
  {
    if table == [] then []
    else [if table[0].key == key then s else table[0]] + Overwrite(table[1..], key, s)
  }

  /** `save_setting`: every document with the key is overwritten, or a new one is appended. */
  function SaveSetting(table: seq<Setting>, key: string, value: Value, now: int): (r: seq<Setting>)
    ensures (forall k :: 0 <= k < |table| ==> table[k].key != key) ==> r == table + [Setting(key, value, now)]
    ensures (exists k :: 0 <= k < |table| && table[k].key == key) ==> |r| == |table|
    ensures forall k :: 0 <= k < |table| && table[k].key != key ==> r[k] == table[k]
    ensures forall k :: 0 <= k < |table| ==> r[k].key == table[k].key
    ensures forall k :: 0 <= k < |r| ==> r[k].key == key ==> r[k] == Setting(key, value, now)
    ensures exists k :: 0 <= k < |r| && r[k].key == key
  {
    if exists k :: 0 <= k < |table| && table[k].key == key then
      var r := Overwrite(table, key, Setting(key, value, now));
      var k :| 0 <= k < |table| && table[k].key == key;
      assert r[k].key == key;
      r
    else
      var r := table + [Setting(key, value, now)];
      assert r[|table|].key == key;
      r
  }

  /** Overwriting one key leaves the lookup of every other key unchanged. */
  lemma {:induction false} OverwriteKeepsOthers(table: seq<Setting>, key: string, s: Setting, other: string, default: Value)
    requires s.key == key && other != key
    ensures GetSetting(Overwrite(table, key, s), other, default) == GetSetting(table, other, default)
  {
    if table != [] {
      OverwriteKeepsOthers(table[1..], key, s, other, default);
      assert Overwrite(table, key, s)[1..] == Overwrite(table[1..], key, s);
    }
  }

  /** Appending a document of another key leaves the lookup unchanged. */
  lemma {:induction false} AppendKeepsOthers(table: seq<Setting>, s: Setting, other: string, default: Value)
    requires s.key != other
    ensures GetSetting(table + [s], other, default) == GetSetting(table, other, default)
  {
    if table != [] {
      AppendKeepsOthers(table[1..], s, other, default);
      assert (table + [s])[1..] == table[1..] + [s];
    }
  }

  /** Saving then reading a key gives the saved value. */
  lemma SaveThenGet(table: seq<Setting>, key: string, value: Value, now: int, default: Value)
    ensures GetSetting(SaveSetting(table, key, value, now), key, default) == value
  {
  }

  /** Saving one key leaves the value of every other key as it was. */
  lemma SaveKeepsOthers(table: seq<Setting>, key: string, value: Value, now: int, other: string, default: Value)
    requires other != key
    ensures GetSetting(SaveSetting(table, key, value, now), other, default) == GetSetting(table, other, default)
  {
    if exists k :: 0 <= k < |table| && table[k].key == key {
      OverwriteKeepsOthers(table, key, Setting(key, value, now), other, default);
    } else {
      AppendKeepsOthers(table, Setting(key, value, now), other, default);
    }
  }

  /** The store keeps one document per key. */
  lemma SaveKeepsUnique(table: seq<Setting>, key: string, value: Value, now: int)
    requires UniqueKeys(table)
    ensures UniqueKeys(SaveSetting(table, key, value, now))
  {
  }

  /** `save_optimization_state`. */
  function SaveState(table: seq<Setting>, state: map<string, bool>, now: int): (r: seq<Setting>)
    ensures GetSetting(r, CacheKey, Str("")) == Cache(Some(state), Stamp(now))
  {
    SaveSetting(table, CacheKey, Cache(Some(state), Stamp(now)), now)
  }

  /** `load_optimization_state`: the cached state when the cache has a readable time less
      than an hour old (an empty state when the cache holds none), otherwise nothing. */
  function LoadState(table: seq<Setting>, now: int): (r: Option<map<string, bool>>)
    ensures r.Some? <==>
      (var c := GetSetting(table, CacheKey, Str(""));
       c.Cache? && c.detectedAt.Stamp? && now - c.detectedAt.at < CacheMaxAge)
    ensures r.Some? ==> r.value == GetSetting(table, CacheKey, Str("")).state.GetOr(map[])
  {
    match GetSetting(table, CacheKey, Str(""))
    case Cache(state, Stamp(at)) => if now - at < CacheMaxAge then Some(state.GetOr(map[])) else None
    case _ => None
  }

  /** A saved state reads back exactly while it is younger than an hour. */
  lemma StateRoundTrip(table: seq<Setting>, state: map<string, bool>, saved: int, now: int)
    ensures LoadState(SaveState(table, state, saved), now) == (if now - saved < CacheMaxAge then Some(state) else None)
  {
  }

  // ---------------------------------------------------------------- network tests

  datatype TestDoc = TestDoc(id: nat, timestamp: int, downloadMbps: real, uploadMbps: real, latencyMs: real)

  function TestTime(t: TestDoc): real { t.timestamp as real }

  /** `get_recent_tests`: newest first, `limit` of them or all when there are fewer. */
  function RecentTests(tests: seq<TestDoc>, limit: nat): (r: seq<TestDoc>)
    ensures |r| == if |tests| <= limit then |tests| else limit
    ensures forall a, b :: 0 <= a < b < |r| ==> r[a].timestamp >= r[b].timestamp
    ensures forall k :: 0 <= k < |r| ==> r[k] in tests
    ensures multiset(r) <= multiset(tests)
    ensures |tests| <= limit ==> multiset(r) == multiset(tests)
  {
    var sorted := Ranking.SortDescendingBy(tests, TestTime);
    var r := Seqs.Take(sorted, limit);
    Seqs.PrefixSubMultiset(r, sorted);
    assert forall k :: 0 <= k < |r| ==> r[k] == sorted[k];
    assert forall k :: 0 <= k < |r| ==> r[k] in multiset(tests);
    r
  }

  /** The recent tests are the newest: a test left out is no newer than any returned one. */
  lemma RecentAreNewest(tests: seq<TestDoc>, limit: nat, t: TestDoc)
    requires t in tests && t !in RecentTests(tests, limit)
    ensures forall k :: 0 <= k < |RecentTests(tests, limit)| ==> t.timestamp <= RecentTests(tests, limit)[k].timestamp
  {
    var sorted := Ranking.SortDescendingBy(tests, TestTime);
    assert t in multiset(sorted);
    var i :| 0 <= i < |sorted| && sorted[i] == t;
    var r := RecentTests(tests, limit);
    assert forall k :: 0 <= k < |r| ==> r[k] == sorted[k];
    assert i >= |r|;
  }

  datatype TestStats = TestStats(total: nat, avgDownload: real, avgUpload: real, avgLatency: real,
                                 bestDownload: real, worstLatency: real)

  function Downloads(ts: seq<TestDoc>): (r: seq<real>)
    ensures |r| == |ts| && forall k :: 0 <= k < |ts| ==> r[k] == ts[k].downloadMbps
  {
    seq(|ts|, k requires 0 <= k < |ts| => ts[k].downloadMbps)
  }
  function Uploads(ts: seq<TestDoc>): (r: seq<real>)
    ensures |r| == |ts| && forall k :: 0 <= k < |ts| ==> r[k] == ts[k].uploadMbps
  {
    seq(|ts|, k requires 0 <= k < |ts| => ts[k].uploadMbps)
  }
  function Latencies(ts: seq<TestDoc>): (r: seq<real>)
    ensures |r| == |ts| && forall k :: 0 <= k < |ts| ==> r[k] == ts[k].latencyMs
  {
    seq(|ts|, k requires 0 <= k < |ts| => ts[k].latencyMs)
  }

  /** `get_test_stats`: fixed defaults for an empty table; otherwise the three means over the
      whole table, the best download and the worst latency that occur in it, and the mean
      download never above the best one. */
  function GetTestStats(tests: seq<TestDoc>): (r: TestStats)
    ensures tests == [] ==> r == TestStats(0, 0.0, 0.0, 0.0, 0.0, 999.0)
    ensures tests != [] ==>
      (r.total == |tests| && r.avgDownload <= r.bestDownload && r.avgLatency <= r.worstLatency
       && (forall k :: 0 <= k < |tests| ==> tests[k].downloadMbps <= r.bestDownload && tests[k].latencyMs <= r.worstLatency))
    ensures tests != [] ==>
      r.avgDownload == Seqs.Sum(Downloads(tests)) / |tests| as real
      && r.avgUpload == Seqs.Sum(Uploads(tests)) / |tests| as real
      && r.avgLatency == Seqs.Sum(Latencies(tests)) / |tests| as real
    ensures tests != [] ==> r.bestDownload in Downloads(tests) && r.worstLatency in Latencies(tests)
  {
    if tests == [] then TestStats(0, 0.0, 0.0, 0.0, 0.0, 999.0)
    else
      var d := Downloads(tests);
      var l := Latencies(tests);
      Seqs.MeanAtMostMax(d);
      Seqs.MeanAtMostMax(l);
      TestStats(|tests|, Seqs.Mean(d), Seqs.Mean(Uploads(tests)), Seqs.Mean(l), Seqs.MaxOr(d, 0.0), Seqs.MaxOr(l, 0.0))
  }

  // ---------------------------------------------------------------- real-time metrics

  const MaxMetrics: nat := 1000

  datatype MetricDoc = MetricDoc(id: nat, timestamp: int, bytesSent: nat, bytesRecv: nat)

  function MetricTime(m: MetricDoc): real { m.timestamp as real }

  function IdOf(m: MetricDoc): nat { m.id }

  predicate DistinctIds(ms: seq<MetricDoc>) {
    Seqs.DistinctBy(ms, IdOf)
  }

  /** The id the table gives the next document: one more than the largest. */
  function NextId(ms: seq<MetricDoc>): (r: nat)
    ensures forall k :: 0 <= k < |ms| ==> ms[k].id < r
  {
    if ms == [] then 1
    else
      var n := NextId(ms[..|ms| - 1]);
      assert forall k :: 0 <= k < |ms| - 1 ==> ms[..|ms| - 1][k] == ms[k];
      if ms[|ms| - 1].id >= n then ms[|ms| - 1].id + 1 else n
  }

  /** `save_metric`: the document is appended with the current time; past 1000 documents,
      only those among the 1000 newest are kept, in table order. */
  function SaveMetric(ms: seq<MetricDoc>, bytesSent: nat, bytesRecv: nat, now: int): (r: seq<MetricDoc>)
    ensures |ms| < MaxMetrics ==> r == ms + [MetricDoc(NextId(ms), now, bytesSent, bytesRecv)]
    ensures forall m :: m in r ==> m in ms + [MetricDoc(NextId(ms), now, bytesSent, bytesRecv)]
  {
    var all := ms + [MetricDoc(NextId(ms), now, bytesSent, bytesRecv)];
    if |all| <= MaxMetrics then all else Capped(all)
  }

  /** The documents of `all` whose ids are among those of the 1000 newest, in table order. */
  function Capped(all: seq<MetricDoc>): (r: seq<MetricDoc>)
    ensures forall m :: m in r ==> m in all
  {
    Seqs.KeepByKey(all, Newest(all), IdOf)
  }

  lemma CappedBounded(all: seq<MetricDoc>)
    requires DistinctIds(all)
    ensures DistinctIds(Capped(all)) && |Capped(all)| <= MaxMetrics
  {
    Seqs.KeepByKeyBounded(all, Newest(all), IdOf);
  }

  lemma AppendFreshId(ms: seq<MetricDoc>, m: MetricDoc)
    requires DistinctIds(ms) && m.id == NextId(ms)
    ensures DistinctIds(ms + [m])
  {
    assert forall k :: 0 <= k < |ms| ==> (ms + [m])[k] == ms[k];
  }

  /** The metrics table stays within 1000 documents with distinct ids. */
  lemma SaveMetricBounded(ms: seq<MetricDoc>, bytesSent: nat, bytesRecv: nat, now: int)
    requires DistinctIds(ms) && |ms| <= MaxMetrics
    ensures DistinctIds(SaveMetric(ms, bytesSent, bytesRecv, now))
    ensures |SaveMetric(ms, bytesSent, bytesRecv, now)| <= MaxMetrics
  {
    var all := ms + [MetricDoc(NextId(ms), now, bytesSent, bytesRecv)];
    AppendFreshId(ms, MetricDoc(NextId(ms), now, bytesSent, bytesRecv));
    if |all| > MaxMetrics {
      CappedBounded(all);
    }
  }

  function Newest(all: seq<MetricDoc>): (r: seq<MetricDoc>)
    ensures |r| <= MaxMetrics
    ensures forall m :: m in r ==> m in all
  {
    var sorted := Ranking.SortDescendingBy(all, MetricTime);
    var r := Seqs.Take(sorted, MaxMetrics);
    assert forall k :: 0 <= k < |r| ==> r[k] in multiset(all);
    r
  }

  /** What the cap leaves out of the newest thousand is no newer than what it keeps. */
  lemma OutsideNewestIsOlder(all: seq<MetricDoc>, x: MetricDoc, y: MetricDoc)
    requires x in Newest(all) && y in all && y !in Newest(all)
    ensures y.timestamp <= x.timestamp
  {
    var sorted := Ranking.SortDescendingBy(all, MetricTime);
    var newest := Newest(all);
    assert forall k :: 0 <= k < |newest| ==> newest[k] == sorted[k];
    assert y in multiset(sorted);
    var i :| 0 <= i < |sorted| && sorted[i] == y;
    var j :| 0 <= j < |newest| && newest[j] == x;
    assert MetricTime(sorted[j]) >= MetricTime(sorted[i]);
  }

  lemma SameIdSameDoc(all: seq<MetricDoc>, x: MetricDoc, y: MetricDoc)
    requires DistinctIds(all) && x in all && y in all && x.id == y.id
    ensures x == y
  {
  }

  /** A metric dropped by the cap is no newer than any metric kept. */
  lemma SaveMetricKeepsNewest(ms: seq<MetricDoc>, bytesSent: nat, bytesRecv: nat, now: int, kept: MetricDoc, dropped: MetricDoc)
    requires DistinctIds(ms)
    requires dropped in ms + [MetricDoc(NextId(ms), now, bytesSent, bytesRecv)]
    requires kept in SaveMetric(ms, bytesSent, bytesRecv, now) && dropped !in SaveMetric(ms, bytesSent, bytesRecv, now)
    ensures dropped.timestamp <= kept.timestamp
  {
    var all := ms + [MetricDoc(NextId(ms), now, bytesSent, bytesRecv)];
    assert DistinctIds(all);
    var z :| z in Newest(all) && z.id == kept.id;
    SameIdSameDoc(all, z, kept);
    assert dropped !in Newest(all);
    OutsideNewestIsOlder(all, kept, dropped);
  }

  /** The tests and the metrics at or after a cutoff. */
  function TestsFrom(cutoff: int): TestDoc -> bool { (t: TestDoc) => t.timestamp >= cutoff }
  function MetricsFrom(cutoff: int): MetricDoc -> bool { (m: MetricDoc) => m.timestamp >= cutoff }

  /** `clear_old_data`: in both the tests and the metrics table, the documents older than
      the cutoff go and the others stay. */
  function ClearOld(tests: seq<TestDoc>, metrics: seq<MetricDoc>, now: int, days: nat): (r: (seq<TestDoc>, seq<MetricDoc>))
    ensures forall t :: t in r.0 <==> t in tests && t.timestamp >= now - days * 86400
    ensures forall m :: m in r.1 <==> m in metrics && m.timestamp >= now - days * 86400
    ensures |r.0| <= |tests| && |r.1| <= |metrics|
  {
    var cutoff := now - days * 86400;
    (Seqs.Filter(tests, TestsFrom(cutoff)), Seqs.Filter(metrics, MetricsFrom(cutoff)))
  }

  /** Clearing twice with the same cutoff is clearing once. */
  lemma ClearOldIdempotent(tests: seq<TestDoc>, metrics: seq<MetricDoc>, now: int, days: nat)
    ensures var once := ClearOld(tests, metrics, now, days);
      ClearOld(once.0, once.1, now, days) == once
  {
    var cutoff := now - days * 86400;
    var once := ClearOld(tests, metrics, now, days);
    assert once == (Seqs.Filter(tests, TestsFrom(cutoff)), Seqs.Filter(metrics, MetricsFrom(cutoff)));
    Seqs.FilterIdempotent(tests, TestsFrom(cutoff));
    Seqs.FilterIdempotent(metrics, MetricsFrom(cutoff));
    assert ClearOld(once.0, once.1, now, days)
      == (Seqs.Filter(once.0, TestsFrom(cutoff)), Seqs.Filter(once.1, MetricsFrom(cutoff)));
  }
}
