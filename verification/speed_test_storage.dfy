/** Speed-test storage with the thinning policy applied after every save: everything from the
    last 24 hours, one test per clock hour for the rest of the week, one per day for the rest
    of the month, one per ISO week beyond that.

    Timestamps are whole seconds of naive local time counted from 0001-01-01 00:00, a Monday,
    so hours, days and Monday-based weeks are plain divisions. */
module SpeedTestStorage {
  import Seqs
  import Ranking

  const Hour: nat := 3600
  const Day: nat := 86400

  datatype Test = Test(id: nat, timestamp: nat, downloadMbps: real, uploadMbps: real, latencyMs: real)

  function HourKey(t: Test): int { t.timestamp / Hour }
  function DayKey(t: Test): int { t.timestamp / Day }
  /** A Monday-to-Sunday week: the ISO (year, week) pair identifies the same block of days. */
  function WeekKey(t: Test): int { t.timestamp / Day / 7 }
  /** Monday is 0, as Python's `weekday()`. */
  function Weekday(t: Test): int { t.timestamp / Day % 7 }
  function HourOfDay(t: Test): int { t.timestamp % Day / Hour }

  function Abs(x: int): nat { if x < 0 then -x else x }

  /** Seconds from half past the test's hour. */
  function HalfPastDistance(t: Test): nat { Abs(t.timestamp - (HourKey(t) * Hour + 1800)) }
  /** Seconds from noon of the test's day. */
  function NoonDistance(t: Test): nat { Abs(t.timestamp - (DayKey(t) * Day + 12 * Hour)) }
  /** Hours from noon, counting the hour of day only. */
  function NoonHourDistance(t: Test): nat { Abs(HourOfDay(t) - 12) }

  /** The distinct keys of the tests, in order of first appearance (the insertion order of the
      grouping dictionary). */
  function Keys(tests: seq<Test>, key: Test -> int): (r: seq<int>)
    ensures forall i, j :: 0 <= i < j < |r| ==> r[i] != r[j]
    ensures forall i :: 0 <= i < |r| ==> exists t :: t in tests && key(t) == r[i]
    ensures forall t :: t in tests ==> key(t) in r
  {
    if |tests| == 0 then []
    else
      var init := tests[..|tests| - 1];
      var last := tests[|tests| - 1];
      assert forall t :: t in tests ==> t in init || t == last;
      var ks := Keys(init, key);
      if key(last) in ks then ks else ks + [key(last)]
  }

  /** The tests with key `k`. */
  function Group(tests: seq<Test>, key: Test -> int, k: int): (r: seq<Test>)
    ensures forall t :: t in r <==> t in tests && key(t) == k
  {
    Seqs.Filter(tests, (t: Test) => key(t) == k)
  }

  /** The first test at the smallest distance: Python's `min` with a key. */
  function Closest(group: seq<Test>, dist: Test -> nat): (r: Test)
    requires group != []
    ensures r in group
    ensures forall t :: t in group ==> dist(r) <= dist(t)
    ensures exists i :: 0 <= i < |group| && group[i] == r && forall k :: 0 <= k < i ==> dist(group[k]) > dist(r)
  {
    if |group| == 1 then group[0]
    else
      var c := Closest(group[1..], dist);
      assert forall t :: t in group ==> t == group[0] || t in group[1..];
      if dist(group[0]) <= dist(c) then group[0]
      else
        var i :| 0 <= i < |group[1..]| && group[1..][i] == c && forall k :: 0 <= k < i ==> dist(group[1..][k]) > dist(c);
        assert group[i + 1] == c;
        c
  }

  /** `_aggregate_by_hour` and `_aggregate_by_day`: one test per key, the closest to the
      key's target. */
  function PerKey(tests: seq<Test>, key: Test -> int, dist: Test -> nat): (r: seq<Test>)
    ensures |r| == |Keys(tests, key)|
    ensures forall i :: 0 <= i < |r| ==> r[i] in tests && key(r[i]) == Keys(tests, key)[i]
    ensures forall i :: 0 <= i < |r| ==> forall t :: t in tests && key(t) == key(r[i]) ==> dist(r[i]) <= dist(t)
  {
    var ks := Keys(tests, key);
    seq(|ks|, i requires 0 <= i < |ks| => Representative(tests, key, dist, ks[i]))
  }

  /** The test of key `k` closest to the key's target. */
  function Representative(tests: seq<Test>, key: Test -> int, dist: Test -> nat, k: int): (r: Test)
    requires exists t :: t in tests && key(t) == k
    ensures r in tests && key(r) == k
    ensures forall t :: t in tests && key(t) == k ==> dist(r) <= dist(t)
  {
    var g := Group(tests, key, k);
    assert g != [] by {
      var t :| t in tests && key(t) == k;
      assert t in g;
    }
    Closest(g, dist)
  }

  /** The representative of one week: the Wednesday test closest to noon by hour, else the
      middle test of the week. */
  function WeekPick(group: seq<Test>): (r: Test)
    requires group != []
    ensures r in group
    ensures (exists t :: t in group && Weekday(t) == 2) ==>
      Weekday(r) == 2 && forall t :: t in group && Weekday(t) == 2 ==> NoonHourDistance(r) <= NoonHourDistance(t)
    ensures (forall t :: t in group ==> Weekday(t) != 2) ==> r == group[|group| / 2]
  {
    var wednesdays := Seqs.Filter(group, (t: Test) => Weekday(t) == 2);
    if wednesdays != [] then Closest(wednesdays, NoonHourDistance)
    else
      group[|group| / 2]
  }

  /** `_aggregate_by_week`. */
  function PerWeek(tests: seq<Test>): (r: seq<Test>)
    ensures |r| == |Keys(tests, WeekKey)|
    ensures forall i :: 0 <= i < |r| ==> r[i] in tests && WeekKey(r[i]) == Keys(tests, WeekKey)[i]
  {
    var ks := Keys(tests, WeekKey);
    seq(|ks|, i requires 0 <= i < |ks| => WeekRepresentative(tests, ks[i]))
  }

  /** The pick of the week `k`, among the tests of that week. */
  function WeekRepresentative(tests: seq<Test>, k: int): (r: Test)
    requires exists t :: t in tests && WeekKey(t) == k
    ensures r in tests && WeekKey(r) == k
  {
    var g := Group(tests, WeekKey, k);
    assert g != [] by {
      var t :| t in tests && WeekKey(t) == k;
      assert t in g;
    }
    WeekPick(g)
  }

  function Ids(tests: seq<Test>): (r: set<nat>)
    ensures forall t :: t in tests ==> t.id in r
    ensures forall id :: id in r ==> exists t :: t in tests && t.id == id
  {
    set t | t in tests :: t.id
  }

  lemma IdsGrow(a: seq<Test>, b: seq<Test>)
    requires forall t :: t in a ==> t in b
    ensures Ids(a) <= Ids(b)
  {
  }

  /** The age tiers of `_intelligent_cleanup`, by the age `now - timestamp`. */
  predicate InDay(t: Test, now: int) { now - t.timestamp < 24 * Hour }
  predicate InWeek(t: Test, now: int) { !InDay(t, now) && now - t.timestamp < 7 * Day }
  predicate InMonth(t: Test, now: int) { !InDay(t, now) && !InWeek(t, now) && now - t.timestamp < 30 * Day }
  predicate InOlder(t: Test, now: int) { !InDay(t, now) && !InWeek(t, now) && !InMonth(t, now) }

  datatype Cleanup = Cleanup(keep: set<nat>, delete: set<nat>)

  function Tier(tests: seq<Test>, now: int, p: (Test, int) -> bool): (r: seq<Test>)
    ensures forall t :: t in r <==> t in tests && p(t, now)
  {
    Seqs.Filter(tests, (t: Test) => p(t, now))
  }

  /** The ids the policy keeps: the whole last day and one representative per hour, day and
      week of the older tiers. */
  function Kept(tests: seq<Test>, now: int): (r: set<nat>)
    ensures r <= Ids(tests)
    ensures forall t :: t in tests && InDay(t, now) ==> t.id in r
  {
    var day := Tier(tests, now, InDay);
    var hourly := PerKey(Tier(tests, now, InWeek), HourKey, HalfPastDistance);
    var daily := PerKey(Tier(tests, now, InMonth), DayKey, NoonDistance);
    var weekly := PerWeek(Tier(tests, now, InOlder));
    IdsGrow(day, tests);
    IdsGrow(hourly, tests);
    IdsGrow(daily, tests);
    IdsGrow(weekly, tests);
    Ids(day) + Ids(hourly) + Ids(daily) + Ids(weekly)
  }

  /** `_intelligent_cleanup`: the ids to keep and the ids to delete. */
  function CleanupOf(tests: seq<Test>, now: int): (r: Cleanup)
    ensures r.keep <= Ids(tests)
    ensures r.delete == Ids(tests) - r.keep
    ensures forall t :: t in tests && InDay(t, now) ==> t.id in r.keep
  {
    if tests == [] then Cleanup({}, {})
    else Cleanup(Kept(tests, now), Ids(tests) - Kept(tests, now))
  }

  /** `save_test`: the test is stored, then the cleanup deletes what it does not keep. */
  function SaveTest(tests: seq<Test>, t: Test, now: int): (r: seq<Test>)
    ensures forall u :: u in r <==> u in tests + [t] && u.id in CleanupOf(tests + [t], now).keep
  {
    var all := tests + [t];
    var c := CleanupOf(all, now);
    Seqs.Filter(all, (u: Test) => u.id !in c.delete)
  }

  /** A test saved with a timestamp within the last day survives its own cleanup. */
  lemma SavedTestSurvives(tests: seq<Test>, t: Test, now: int)
    requires now - t.timestamp < 24 * Hour
    ensures t in SaveTest(tests, t, now)
  {
    assert t in tests + [t];
  }

  /** `get_recent`: the tests at or after the cutoff. */
  function Recent(recent: seq<Test>, now: int, hours: nat): (r: seq<Test>)
    ensures forall t :: t in r <==> t in recent && t.timestamp >= now - hours * Hour
  {
    Seqs.Filter(recent, (t: Test) => t.timestamp >= now - hours * Hour)
  }

  /** Between one and seven days old, every clock hour that had a test keeps one: a test of
      that hour at least as close to half past as any other. */
  lemma KeepsEachHour(tests: seq<Test>, now: int, t: Test)
    requires t in tests && InWeek(t, now)
    ensures exists s :: (s in tests && InWeek(s, now) && HourKey(s) == HourKey(t)
      && s.id in CleanupOf(tests, now).keep && HalfPastDistance(s) <= HalfPastDistance(t))
  {
    var week := Tier(tests, now, InWeek);
    assert t in week;
    var sel := PerKey(week, HourKey, HalfPastDistance);
    var ks := Keys(week, HourKey);
    var i :| 0 <= i < |ks| && ks[i] == HourKey(t);
    assert sel[i] in sel;
  }

  /** Between seven and thirty days old, every day that had a test keeps the one closest to
      noon. */
  lemma KeepsEachDay(tests: seq<Test>, now: int, t: Test)
    requires t in tests && InMonth(t, now)
    ensures exists s :: (s in tests && InMonth(s, now) && DayKey(s) == DayKey(t)
      && s.id in CleanupOf(tests, now).keep && NoonDistance(s) <= NoonDistance(t))
  {
    var month := Tier(tests, now, InMonth);
    assert t in month;
    var sel := PerKey(month, DayKey, NoonDistance);
    var ks := Keys(month, DayKey);
    var i :| 0 <= i < |ks| && ks[i] == DayKey(t);
    assert sel[i] in sel;
  }

  /** Beyond thirty days, every week that had a test keeps one of that week. */
  lemma KeepsEachWeek(tests: seq<Test>, now: int, t: Test)
    requires t in tests && InOlder(t, now)
    ensures exists s :: (s in tests && InOlder(s, now) && WeekKey(s) == WeekKey(t)
      && s.id in CleanupOf(tests, now).keep)
  {
    var older := Tier(tests, now, InOlder);
    assert t in older;
    var sel := PerWeek(older);
    var ks := Keys(older, WeekKey);
    var i :| 0 <= i < |ks| && ks[i] == WeekKey(t);
    assert sel[i] in sel;
  }

  /** Thinning keeps at most one test per hour of the week tier: as many as there are
      distinct hours, and no two of the same hour. */
  lemma OnePerHour(tests: seq<Test>)
    ensures var sel := PerKey(tests, HourKey, HalfPastDistance);
      forall i, j :: 0 <= i < j < |sel| ==> HourKey(sel[i]) != HourKey(sel[j])
  {
  }

  /** Tests are rows with a primary key: two with the same id are the same test. */
  predicate DistinctIds(tests: seq<Test>) {
    forall i, j :: 0 <= i < |tests| && 0 <= j < |tests| && tests[i].id == tests[j].id ==> tests[i] == tests[j]
  }

  /** Two picks of `PerKey` with the same key are the same test. */
  lemma PerKeyOneEach(tests: seq<Test>, key: Test -> int, dist: Test -> nat, s: Test, u: Test)
    requires s in PerKey(tests, key, dist) && u in PerKey(tests, key, dist) && key(s) == key(u)
    ensures s == u
  {
    var sel := PerKey(tests, key, dist);
    var i :| 0 <= i < |sel| && sel[i] == s;
    var j :| 0 <= j < |sel| && sel[j] == u;
    assert Keys(tests, key)[i] == Keys(tests, key)[j];
  }

  /** Two picks of `PerWeek` of the same week are the same test. */
  lemma PerWeekOneEach(tests: seq<Test>, s: Test, u: Test)
    requires s in PerWeek(tests) && u in PerWeek(tests) && WeekKey(s) == WeekKey(u)
    ensures s == u
  {
    var sel := PerWeek(tests);
    var i :| 0 <= i < |sel| && sel[i] == s;
    var j :| 0 <= j < |sel| && sel[j] == u;
    assert Keys(tests, WeekKey)[i] == Keys(tests, WeekKey)[j];
  }

  /** With distinct ids, a test whose id some sub-selection holds is in that selection. */
  lemma IdInSelection(tests: seq<Test>, sel: seq<Test>, s: Test)
    requires DistinctIds(tests) && s in tests && forall t :: t in sel ==> t in tests
    requires s.id in Ids(sel)
    ensures s in sel
  {
    var t :| t in sel && t.id == s.id;
    var i :| 0 <= i < |tests| && tests[i] == s;
    var j :| 0 <= j < |tests| && tests[j] == t;
  }

  /** A kept test older than a day is kept as the pick of its own tier. */
  lemma KeptIsPick(tests: seq<Test>, now: int, s: Test)
    requires DistinctIds(tests) && s in tests && s.id in CleanupOf(tests, now).keep
    ensures InWeek(s, now) ==> s in PerKey(Tier(tests, now, InWeek), HourKey, HalfPastDistance)
    ensures InMonth(s, now) ==> s in PerKey(Tier(tests, now, InMonth), DayKey, NoonDistance)
    ensures InOlder(s, now) ==> s in PerWeek(Tier(tests, now, InOlder))
  {
    var day := Tier(tests, now, InDay);
    var hourly := PerKey(Tier(tests, now, InWeek), HourKey, HalfPastDistance);
    var daily := PerKey(Tier(tests, now, InMonth), DayKey, NoonDistance);
    var weekly := PerWeek(Tier(tests, now, InOlder));
    assert Kept(tests, now) == Ids(day) + Ids(hourly) + Ids(daily) + Ids(weekly);
    if s.id in Ids(day) { IdInSelection(tests, day, s); }
    if s.id in Ids(hourly) { IdInSelection(tests, hourly, s); }
    if s.id in Ids(daily) { IdInSelection(tests, daily, s); }
    if s.id in Ids(weekly) { IdInSelection(tests, weekly, s); }
  }

  /** The thinning: among kept tests, no two of the one-to-seven-day tier share a clock hour,
      no two of the seven-to-thirty-day tier share a day, and no two older ones share a week. */
  lemma ThinsToOnePerBucket(tests: seq<Test>, now: int, s: Test, u: Test)
    requires DistinctIds(tests) && s in tests && u in tests
    requires s.id in CleanupOf(tests, now).keep && u.id in CleanupOf(tests, now).keep
    ensures InWeek(s, now) && InWeek(u, now) && HourKey(s) == HourKey(u) ==> s == u
    ensures InMonth(s, now) && InMonth(u, now) && DayKey(s) == DayKey(u) ==> s == u
    ensures InOlder(s, now) && InOlder(u, now) && WeekKey(s) == WeekKey(u) ==> s == u
  {
    KeptIsPick(tests, now, s);
    KeptIsPick(tests, now, u);
    if InWeek(s, now) && InWeek(u, now) && HourKey(s) == HourKey(u) {
      PerKeyOneEach(Tier(tests, now, InWeek), HourKey, HalfPastDistance, s, u);
    }
    if InMonth(s, now) && InMonth(u, now) && DayKey(s) == DayKey(u) {
      PerKeyOneEach(Tier(tests, now, InMonth), DayKey, NoonDistance, s, u);
    }
    if InOlder(s, now) && InOlder(u, now) && WeekKey(s) == WeekKey(u) {
      PerWeekOneEach(Tier(tests, now, InOlder), s, u);
    }
  }

  // ---------------------------------------------------------------- statistics

  datatype Stats = Stats(count: nat, avgDownload: real, avgUpload: real, avgLatency: real,
                         maxDownload: real, minDownload: real, medianDownload: real)

  function Downloads(ts: seq<Test>): seq<real> { seq(|ts|, k requires 0 <= k < |ts| => ts[k].downloadMbps) }
  function Uploads(ts: seq<Test>): seq<real> { seq(|ts|, k requires 0 <= k < |ts| => ts[k].uploadMbps) }
  function Latencies(ts: seq<Test>): seq<real> { seq(|ts|, k requires 0 <= k < |ts| => ts[k].latencyMs) }

  /** Python's `statistics.median`: the middle of the sorted values, or the mean of the two
      middle ones. */
  function Median(xs: seq<real>): (r: real)
    requires xs != []
    ensures exists k :: 0 <= k < |xs| && xs[k] <= r
    ensures exists k :: 0 <= k < |xs| && r <= xs[k]
  {
    var s := Ranking.SortAscendingBy(xs, (x: real) => x);
    var n := |s|;
    assert s[n / 2] in multiset(xs);
    if n % 2 == 1 then s[n / 2]
    else
      assert s[n / 2 - 1] in multiset(xs);
      (s[n / 2 - 1] + s[n / 2]) / 2.0
  }

  /** The tests of the last `days` days. */
  function Period(recent: seq<Test>, now: int, days: nat): (r: seq<Test>)
    ensures forall t :: t in r <==> t in recent && t.timestamp >= now - days * Day
  {
    Seqs.Filter(recent, (t: Test) => t.timestamp >= now - days * Day)
  }

  /** `get_stats`: the tests of the last `days` days among the 1000 newest; all zeros when
      there are none, otherwise the count, the three means, the extremes and the median of
      the downloads. */
  function GetStats(recent: seq<Test>, now: int, days: nat): (r: Stats)
    ensures r.count == |Period(recent, now, days)|
    ensures Period(recent, now, days) == [] ==> r == Stats(0, 0.0, 0.0, 0.0, 0.0, 0.0, 0.0)
    ensures var period := Period(recent, now, days);
      period != [] ==> r.minDownload <= r.avgDownload <= r.maxDownload
                       && r.minDownload <= r.medianDownload <= r.maxDownload
    ensures var period := Period(recent, now, days);
      period != [] ==> r.maxDownload in Downloads(period) && r.minDownload in Downloads(period)
                       && forall k :: 0 <= k < |period| ==> r.minDownload <= period[k].downloadMbps <= r.maxDownload
    ensures var period := Period(recent, now, days);
      period != [] ==> r.avgDownload == Seqs.Sum(Downloads(period)) / |period| as real
                       && r.avgUpload == Seqs.Sum(Uploads(period)) / |period| as real
                       && r.avgLatency == Seqs.Sum(Latencies(period)) / |period| as real
  {
    var period := Period(recent, now, days);
    if period == [] then Stats(0, 0.0, 0.0, 0.0, 0.0, 0.0, 0.0)
    else
      var d := Downloads(period);
      var hi := Seqs.MaxOr(d, 0.0);
      var lo := Seqs.MinOr(d, 0.0);
      Seqs.MeanBounded(d, lo, hi);
      assert forall k :: 0 <= k < |period| ==> d[k] == period[k].downloadMbps;
      Stats(|period|, Seqs.Mean(d), Seqs.Mean(Uploads(period)), Seqs.Mean(Latencies(period)),
            hi, lo, Median(d))
  }
}
