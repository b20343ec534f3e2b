/** The diagnostic history of the desktop front end: the health score of a report, the
    history of the last 20 reports, and the statistics derived from it.

    Ids and timestamps come from the clock and a random source and are parameters;
    persistence in local storage and the JSON text of an export are not modelled, and
    the recommendation texts are carried as the `Advice` they stand for. */
module DiagnosticStore {
  import opened Wrappers
  import Seqs

  datatype Kind = Full | Quick | SpeedTest | DnsOnly | LatencyOnly

  datatype Health = Excellent | Good | Fair | Poor | Critical | Warning | Unknown

  datatype FailurePoint = NoFailure | Adapter | Router | Isp | Dns | Speed

  datatype SpeedResult = SpeedResult(download: real, upload: real, ping: real, jitter: real)

  /** The recommendation a factory attaches to a report. */
  datatype Advice =
    | SpeedExcellent | SpeedVeryGood | SpeedGood | SpeedAcceptable | SpeedLow
    | DnsDown | DnsUltraFast | DnsFast | DnsAcceptable | DnsSlow
    | RouterLatencyHigh | IspLatencyHigh | DnsLatencyHigh | LatencyExcellent | LatencyAcceptable

  /** A report as it is stored. A latency of 0 stands for one that was not measured, which
      the scoring skips just as it skips a missing field; a report read back from storage
      may lack its score. */
  datatype Report = Report(
    id: string, kind: Kind, health: Health, score: Option<int>, failure: FailurePoint,
    adapterOk: bool, routerOk: bool, ispOk: bool, dnsOk: bool,
    routerLatency: real, ispLatency: real, dnsLatency: real,
    speed: Option<SpeedResult>, advice: Advice)

  const MaxHistory: nat := 20

  // Health score

  /** The fields `calculateHealthScore` looks at; an absent flag counts as false. */
  datatype Measures = Measures(
    dnsLatency: real, routerLatency: real, speed: Option<SpeedResult>,
    adapterOk: bool, routerOk: bool, ispOk: bool, dnsOk: bool)

  datatype Assessment = Assessment(score: int, status: Health)

  /** The status band of a score. */
  function Band(score: int): (h: Health)
    ensures h in {Excellent, Good, Fair, Poor, Critical}
    ensures h == Excellent <==> 90 <= score
    ensures h == Critical <==> score < 25
  {
    if score >= 90 then Excellent
    else if score >= 75 then Good
    else if score >= 50 then Fair
    else if score >= 25 then Poor
    else Critical
  }

  /** How good a band is, Critical lowest. */
  function Rank(h: Health): nat {
    match h
    case Excellent => 4
    case Good => 3
    case Fair => 2
    case Poor => 1
    case _ => 0
  }

  /** A higher score never lands in a worse band. */
  lemma BandMonotone(a: int, b: int)
    requires a <= b
    ensures Rank(Band(a)) <= Rank(Band(b))
  {
  }

  /** A latency penalty: nothing for an unmeasured (zero) latency, else the amount of the
      first bound it exceeds. */
  function LatencyPenalty(ms: real, high: real, mid: real, low: real, big: int, medium: int, small: int): int {
    if ms == 0.0 then 0
    else if ms > high then big
    else if ms > mid then medium
    else if ms > low then small
    else 0
  }

  function DnsPenalty(ms: real): int { LatencyPenalty(ms, 500.0, 200.0, 100.0, 30, 15, 5) }

  function RouterPenalty(ms: real): int { LatencyPenalty(ms, 100.0, 50.0, 20.0, 20, 10, 5) }

  function SpeedPenalty(sp: Option<SpeedResult>): int {
    match sp
    case None => 0
    case Some(s) =>
      (if s.download < 5.0 then 30 else if s.download < 10.0 then 20 else if s.download < 25.0 then 10 else 0)
      + (if s.upload < 1.0 then 15 else if s.upload < 5.0 then 10 else 0)
      + (if s.jitter > 50.0 then 15 else if s.jitter > 20.0 then 5 else 0)
  }

  function FailurePenalty(m: Measures): int {
    (if m.adapterOk then 0 else 50) + (if m.routerOk then 0 else 40)
    + (if m.ispOk then 0 else 30) + (if m.dnsOk then 0 else 20)
  }

  /** `calculateHealthScore`: 100 less the penalties, clamped to [0, 100], and its band. */
  function HealthScore(m: Measures): (r: Assessment)
    ensures 0 <= r.score <= 100
    ensures r.status == Band(r.score)
    ensures !m.adapterOk ==> r.score <= 50
    ensures !m.routerOk ==> r.score <= 60
    ensures !m.ispOk ==> r.score <= 70
    ensures !m.dnsOk ==> r.score <= 80 && r.status != Excellent
  {
    var raw := 100 - DnsPenalty(m.dnsLatency) - RouterPenalty(m.routerLatency)
               - SpeedPenalty(m.speed) - FailurePenalty(m);
    var score := if raw < 0 then 0 else if raw > 100 then 100 else raw;
    Assessment(score, Band(score))
  }

  /** Nothing to penalise scores a full 100. */
  lemma CleanRunScoresFull(m: Measures)
    requires m.adapterOk && m.routerOk && m.ispOk && m.dnsOk
    requires m.speed.None? && 0.0 <= m.dnsLatency <= 100.0 && 0.0 <= m.routerLatency <= 20.0
    ensures HealthScore(m) == Assessment(100, Excellent)
  {
  }

  lemma PenaltyMonotone(a: real, b: real, high: real, mid: real, low: real, big: int, medium: int, small: int)
    requires 0.0 < a <= b && low <= mid <= high && 0 <= small <= medium <= big
    ensures LatencyPenalty(a, high, mid, low, big, medium, small) <= LatencyPenalty(b, high, mid, low, big, medium, small)
  {
  }

  /** A slower DNS answer or router never raises the score. */
  lemma SlowerNeverScoresHigher(m: Measures, dns: real, router: real)
    requires 0.0 < m.dnsLatency <= dns && 0.0 < m.routerLatency <= router
    ensures HealthScore(m.(dnsLatency := dns, routerLatency := router)).score <= HealthScore(m).score
  {
    PenaltyMonotone(m.dnsLatency, dns, 500.0, 200.0, 100.0, 30, 15, 5);
    PenaltyMonotone(m.routerLatency, router, 100.0, 50.0, 20.0, 20, 10, 5);
  }

  /** A phase that fails never raises the score. */
  lemma FailureNeverScoresHigher(m: Measures, adapterOk: bool, routerOk: bool, ispOk: bool, dnsOk: bool)
    requires (adapterOk ==> m.adapterOk) && (routerOk ==> m.routerOk) && (ispOk ==> m.ispOk) && (dnsOk ==> m.dnsOk)
    ensures HealthScore(m.(adapterOk := adapterOk, routerOk := routerOk, ispOk := ispOk, dnsOk := dnsOk)).score
            <= HealthScore(m).score
  {
  }

  // Report factories

  function SpeedAdvice(download: real): (a: Advice)
    ensures a in {SpeedExcellent, SpeedVeryGood, SpeedGood, SpeedAcceptable, SpeedLow}
    ensures a == SpeedLow <==> download < 10.0
  {
    if download >= 100.0 then SpeedExcellent
    else if download >= 50.0 then SpeedVeryGood
    else if download >= 25.0 then SpeedGood
    else if download >= 10.0 then SpeedAcceptable
    else SpeedLow
  }

  function DnsAdvice(latency: real, ok: bool): (a: Advice)
    ensures a == DnsDown <==> !ok
  {
    if !ok then DnsDown
    else if latency < 20.0 then DnsUltraFast
    else if latency < 50.0 then DnsFast
    else if latency < 100.0 then DnsAcceptable
    else DnsSlow
  }

  function LatencyAdvice(router: real, isp: real, dns: real): (a: Advice)
    ensures a == RouterLatencyHigh <==> router > 100.0
    ensures a == LatencyExcellent ==> router < 5.0 && isp < 30.0 && dns < 30.0
  {
    if router > 100.0 then RouterLatencyHigh
    else if isp > 150.0 then IspLatencyHigh
    else if dns > 200.0 then DnsLatencyHigh
    else if router < 5.0 && isp < 30.0 && dns < 30.0 then LatencyExcellent
    else LatencyAcceptable
  }

  /** The stored fields of a report, scored by `calculateHealthScore`. */
  function Scored(kind: Kind, m: Measures, ispLatency: real, failure: FailurePoint, advice: Advice): (r: Report)
    ensures r.score.Some? && r.health == Band(r.score.value) && 0 <= r.score.value <= 100
    ensures r.kind == kind && r.failure == failure && r.advice == advice
    ensures r.adapterOk == m.adapterOk && r.routerOk == m.routerOk && r.ispOk == m.ispOk && r.dnsOk == m.dnsOk
    ensures r.id == ""
  {
    var a := HealthScore(m);
    Report("", kind, a.status, Some(a.score), failure, m.adapterOk, m.routerOk, m.ispOk, m.dnsOk,
           m.routerLatency, ispLatency, m.dnsLatency, m.speed, advice)
  }

  /** `createSpeedTestReport`: every phase passed; the ping is the DNS latency. */
  function SpeedTestReport(s: SpeedResult): (r: Report)
    ensures r.kind == SpeedTest && r.failure == NoFailure && r.speed == Some(s)
    ensures r.adapterOk && r.routerOk && r.ispOk && r.dnsOk && r.dnsLatency == s.ping
    ensures r.advice == SpeedAdvice(s.download)
    ensures r.score.Some? && r.health == Band(r.score.value)
  {
    Scored(SpeedTest, Measures(s.ping, 0.0, Some(s), true, true, true, true), 0.0, NoFailure, SpeedAdvice(s.download))
  }

  /** `createDnsOnlyReport`: only the DNS phase can fail, and then it is the failure point. */
  function DnsOnlyReport(latency: real, ok: bool): (r: Report)
    ensures r.kind == DnsOnly && r.dnsOk == ok && r.adapterOk && r.routerOk && r.ispOk
    ensures r.failure == (if ok then NoFailure else Dns)
    ensures r.score.Some? && r.health == Band(r.score.value)
  {
    Scored(DnsOnly, Measures(latency, 0.0, None, true, true, true, ok), 0.0,
           if ok then NoFailure else Dns, DnsAdvice(latency, ok))
  }

  /** `createLatencyOnlyReport`: each phase passes exactly when its latency is under its
      bound, 100 ms for the router, 150 for the ISP and 200 for DNS. */
  function LatencyOnlyReport(router: real, isp: real, dns: real): (r: Report)
    ensures r.kind == LatencyOnly && r.failure == NoFailure && r.adapterOk
    ensures r.routerOk <==> router < 100.0
    ensures r.ispOk <==> isp < 150.0
    ensures r.dnsOk <==> dns < 200.0
    ensures r.routerLatency == router && r.ispLatency == isp && r.dnsLatency == dns
    ensures r.score.Some? && r.health == Band(r.score.value)
  {
    Scored(LatencyOnly, Measures(dns, router, None, true, router < 100.0, isp < 150.0, dns < 200.0), isp,
           NoFailure, LatencyAdvice(router, isp, dns))
  }

  /** A router slower than 100 ms reports a poor or critical network. */
  lemma SlowRouterIsPoor(router: real, isp: real, dns: real)
    requires router > 100.0
    ensures Rank(LatencyOnlyReport(router, isp, dns).health) <= Rank(Poor)
  {
    var m := Measures(dns, router, None, true, false, isp < 150.0, dns < 200.0);
    assert RouterPenalty(router) == 20;
    assert HealthScore(m).score < 50;
  }

  // History

  /** `add`: the report, with its new id, goes first and only the newest 20 remain. */
  function Add(history: seq<Report>, draft: Report, id: string): (r: seq<Report>)
    ensures |r| == if |history| < MaxHistory then |history| + 1 else MaxHistory
    ensures r[0] == draft.(id := id)
    ensures r[1..] == history[..|r| - 1]
  {
    Seqs.Take([draft.(id := id)] + history, MaxHistory)
  }

  /** `getById`: the first report with this id. */
  function GetById(history: seq<Report>, id: string): (r: Option<Report>)
    ensures r.Some? ==> r.value in history && r.value.id == id
    ensures r.None? <==> forall k :: 0 <= k < |history| ==> history[k].id != id
  {
    match Seqs.FirstIndex(history, (d: Report) => d.id == id)
    case Some(k) => Some(history[k])
    case None => None
  }

  /** `getLatest` and `latestDiagnostic`. */
  function Latest(history: seq<Report>): (r: Option<Report>)
    ensures r.None? <==> history == []
    ensures r.Some? ==> r.value == history[0]
  {
    if history == [] then None else Some(history[0])
  }

  /** An added report is the latest, and can be found by its id when that id is new. */
  lemma AddThenFind(history: seq<Report>, draft: Report, id: string)
    ensures Latest(Add(history, draft, id)) == Some(draft.(id := id))
    ensures GetById(Add(history, draft, id), id) == Some(draft.(id := id))
  {
  }

  /** `remove`: drop every report with this id and keep every other one. */
  function Remove(history: seq<Report>, id: string): (r: seq<Report>)
    ensures forall k :: 0 <= k < |r| ==> r[k].id != id && r[k] in history
    ensures forall k :: 0 <= k < |history| && history[k].id != id ==> history[k] in r
  {
    Seqs.Filter(history, (d: Report) => d.id != id)
  }

  lemma {:induction false} FilterKeepsAll<T>(s: seq<T>, p: T -> bool)
    requires forall k :: 0 <= k < |s| ==> p(s[k])
    ensures Seqs.Filter(s, p) == s
  {
    if s != [] {
      FilterKeepsAll(s[1..], p);
    }
  }

  /** Removing a report just added under a new id gives back the history it was added to,
      as long as that history was not full. */
  lemma RemoveUndoesAdd(history: seq<Report>, draft: Report, id: string)
    requires |history| < MaxHistory
    requires forall k :: 0 <= k < |history| ==> history[k].id != id
    ensures Remove(Add(history, draft, id), id) == history
  {
    var added := Add(history, draft, id);
    assert added == [draft.(id := id)] + history;
    assert added[1..] == history;
    FilterKeepsAll(history, (d: Report) => d.id != id);
  }

  /** The parsed text handed to `import`: not JSON at all, or an object whose `reports`
      field is missing, is not an array, or is an array of reports. */
  datatype Document = Malformed | NoReports | ReportsNotArray | Reports(items: seq<Report>)

  /** `import`: a `reports` array replaces the history by its first 20 entries and answers
      true; anything else answers false and leaves the history alone. */
  function Import(history: seq<Report>, doc: Document): (r: (bool, seq<Report>))
    ensures r.0 <==> doc.Reports?
    ensures r.0 ==> r.1 == Seqs.Take(doc.items, MaxHistory)
    ensures !r.0 ==> r.1 == history
  {
    if doc.Reports? then (true, Seqs.Take(doc.items, MaxHistory)) else (false, history)
  }

  /** `export`: the history as the `reports` field of the document. */
  function Export(history: seq<Report>): (d: Document)
    ensures d.Reports? && d.items == history
  {
    Reports(history)
  }

  /** Importing an export restores the history, which never holds more than 20 reports. */
  lemma ImportOfExport(history: seq<Report>, other: seq<Report>)
    requires |history| <= MaxHistory
    ensures Import(other, Export(history)) == (true, history)
  {
  }

  // Derived stores

  /** Counted as a success by the statistics. */
  predicate Healthy(d: Report) {
    d.health == Good || d.health == Excellent
  }

  /** `hasIssues` as written: the latest report exists and is not 'good' — so an
      'excellent' one counts as an issue. */
  predicate HasIssuesAsWritten(history: seq<Report>) {
    history != [] && history[0].health != Good
  }

  /** The latest report is an excellent one, yet the store says there are issues. */
  lemma ExcellentRaisesIssueAsWritten(history: seq<Report>)
    requires history != [] && history[0].health == Excellent
    ensures HasIssuesAsWritten(history) && !HasIssues(history)
  {
  }

  /** `hasIssues` as intended: the latest report exists and is neither good nor excellent,
      the same line the success rate draws. */
  predicate HasIssues(history: seq<Report>) {
    history != [] && !Healthy(history[0])
  }

  /** There are issues exactly when the latest report would not count as a success. */
  lemma HasIssuesMatchesSuccess(history: seq<Report>)
    requires history != []
    ensures HasIssues(history) <==> Seqs.Count([history[0]], Healthy) == 0
  {
  }

  /** JavaScript's `Math.round`: the nearest integer, half-way cases upward. */
  function JsRound(x: real): (r: int)
    ensures x - 0.5 < r as real <= x + 0.5
  {
    (x + 0.5).Floor
  }

  function Mean(xs: seq<real>): real
    requires xs != []
  {
    Seqs.Sum(xs) / |xs| as real
  }

  function DnsLatencies(h: seq<Report>): (r: seq<real>)
    ensures |r| == |h| && forall k :: 0 <= k < |h| ==> r[k] == h[k].dnsLatency
  {
    seq(|h|, k requires 0 <= k < |h| => h[k].dnsLatency)
  }

  function RouterLatencies(h: seq<Report>): (r: seq<real>)
    ensures |r| == |h| && forall k :: 0 <= k < |h| ==> r[k] == h[k].routerLatency
  {
    seq(|h|, k requires 0 <= k < |h| => h[k].routerLatency)
  }

  function ScoresOf(h: seq<Report>): (r: seq<real>)
    ensures |r| == |h|
  {
    seq(|h|, k requires 0 <= k < |h| => if h[k].score.Some? then h[k].score.value as real else 0.0)
  }

  function Downloads(h: seq<Report>): (r: seq<real>)
    ensures |r| == |h|
  {
    seq(|h|, k requires 0 <= k < |h| => if h[k].speed.Some? then h[k].speed.value.download else 0.0)
  }

  function Uploads(h: seq<Report>): (r: seq<real>)
    ensures |r| == |h|
  {
    seq(|h|, k requires 0 <= k < |h| => if h[k].speed.Some? then h[k].speed.value.upload else 0.0)
  }

  predicate HasScore(d: Report) { d.score.Some? }
  predicate HasSpeed(d: Report) { d.speed.Some? }

  /** How many reports name this failure point. */
  function FailureCount(h: seq<Report>, f: FailurePoint): nat {
    Seqs.Count(h, (d: Report) => d.failure == f)
  }

  function MaxFailureCount(h: seq<Report>, all: seq<Report>): (m: nat)
    ensures forall k :: 0 <= k < |h| && h[k].failure != NoFailure ==> FailureCount(all, h[k].failure) <= m
    ensures m > 0 ==> exists k :: 0 <= k < |h| && h[k].failure != NoFailure && FailureCount(all, h[k].failure) == m
  {
    if h == [] then 0
    else
      var rest := MaxFailureCount(h[1..], all);
      var here := if h[0].failure == NoFailure then 0 else FailureCount(all, h[0].failure);
      assert forall k :: 1 <= k < |h| ==> h[k] == h[1..][k - 1];
      if here > rest then here else rest
  }

  /** One report names this failure point, so it is counted at least once. */
  lemma FailureCounted(h: seq<Report>, k: nat)
    requires k < |h|
    ensures FailureCount(h, h[k].failure) >= 1
  {
    var p := (d: Report) => d.failure == h[k].failure;
    assert p(h[k]);
    assert h[k] in Seqs.Filter(h, p);
  }

  /** The most frequent failure point, ties going to the one a newer report names first; no
      failure at all gives `NoFailure`. Counting into an object in order of first sight and
      stable-sorting its entries by count, as the store does, picks the same one. */
  function CommonIssue(h: seq<Report>): (r: FailurePoint)
    ensures r == NoFailure <==> forall k :: 0 <= k < |h| ==> h[k].failure == NoFailure
    ensures r != NoFailure ==> forall k :: 0 <= k < |h| && h[k].failure != NoFailure
                                 ==> FailureCount(h, h[k].failure) <= FailureCount(h, r)
    ensures r != NoFailure ==> exists k :: 0 <= k < |h| && h[k].failure == r
                                 && forall j :: 0 <= j < k && h[j].failure != NoFailure
                                      ==> FailureCount(h, h[j].failure) < FailureCount(h, r)
  {
    var m := MaxFailureCount(h, h);
    var top := (d: Report) => d.failure != NoFailure && FailureCount(h, d.failure) == m;
    match Seqs.FirstIndex(h, top)
    case None =>
      assert forall k :: 0 <= k < |h| ==> h[k].failure == NoFailure by {
        forall k | 0 <= k < |h| ensures h[k].failure == NoFailure {
          if h[k].failure != NoFailure {
            FailureCounted(h, k);
          }
        }
      }
      NoFailure
    case Some(k) =>
      LeaderBeatsEarlier(h, m, k);
      h[k].failure
  }

  /** The first report whose failure point reaches the highest count is preceded only by
      reports whose failure points are counted fewer times. */
  lemma LeaderBeatsEarlier(h: seq<Report>, m: nat, k: nat)
    requires k < |h| && h[k].failure != NoFailure && FailureCount(h, h[k].failure) == m
    requires forall j :: 0 <= j < |h| && h[j].failure != NoFailure ==> FailureCount(h, h[j].failure) <= m
    requires forall j :: 0 <= j < k ==> h[j].failure == NoFailure || FailureCount(h, h[j].failure) != m
    ensures forall j :: 0 <= j < k && h[j].failure != NoFailure ==> FailureCount(h, h[j].failure) < m
  {
  }

  datatype Stats = Stats(avgDnsLatency: int, avgRouterLatency: int, successRate: int, commonIssue: FailurePoint,
                         totalTests: nat, avgHealthScore: int, avgDownload: real, avgUpload: real,
                         testsByKind: map<Kind, nat>)

  /** A mean rounded to one decimal place, 0 for nothing to average. */
  function TenthsMean(xs: seq<real>): real {
    if xs == [] then 0.0 else JsRound(Mean(xs) * 10.0) as real / 10.0
  }

  /** The kinds of the reports in a history. */
  function KindsOf(h: seq<Report>): (r: set<Kind>)
    ensures forall k :: k in r <==> exists j :: 0 <= j < |h| && h[j].kind == k
  {
    set j | 0 <= j < |h| :: h[j].kind
  }

  /** `testsByType`: for each kind present, how many reports have it. */
  function KindCounts(h: seq<Report>): (r: map<Kind, nat>)
    ensures r.Keys == KindsOf(h)
    ensures forall k :: k in r ==> r[k] == Seqs.Count(h, (d: Report) => d.kind == k) && r[k] > 0
  {
    map k | k in KindsOf(h) :: KindCount(h, k)
  }

  function KindCount(h: seq<Report>, k: Kind): (n: nat)
    ensures n == Seqs.Count(h, (d: Report) => d.kind == k)
    ensures k in KindsOf(h) ==> n > 0
  {
    var p := (d: Report) => d.kind == k;
    assert k in KindsOf(h) ==> Seqs.Count(h, p) > 0 by {
      if k in KindsOf(h) {
        var j :| 0 <= j < |h| && h[j].kind == k;
        assert p(h[j]);
        assert h[j] in Seqs.Filter(h, p);
      }
    }
    Seqs.Count(h, p)
  }

  /** The share of good or excellent reports, as a rounded percentage. */
  function SuccessRate(h: seq<Report>): (r: int)
    requires h != []
    ensures 0 <= r <= 100
    ensures Seqs.Count(h, Healthy) == |h| ==> r == 100
    ensures Seqs.Count(h, Healthy) == 0 ==> r == 0
  {
    assert Seqs.Count(h, Healthy) <= |h|;
    var rate := Seqs.Percent(Seqs.Count(h, Healthy), |h|);
    JsRound(rate)
  }

  /** `diagnosticStats`: the latency means over every report and the score mean over the
      scored ones, each rounded to a whole number; the speed means over the reports with a
      speed test, each rounded to a tenth; the success rate, the commonest failure and the
      count per kind. */
  function DiagnosticStats(h: seq<Report>): (r: Stats)
    ensures h == [] ==> r == Stats(0, 0, 0, NoFailure, 0, 0, 0.0, 0.0, map[])
    ensures r.totalTests == |h| && r.commonIssue == CommonIssue(h)
    ensures h != [] ==> r.successRate == SuccessRate(h) && r.testsByKind == KindCounts(h)
    ensures h != [] ==> var dns := Seqs.Sum(DnsLatencies(h)) / |h| as real;
      dns - 0.5 < r.avgDnsLatency as real <= dns + 0.5
    ensures h != [] ==> var router := Seqs.Sum(RouterLatencies(h)) / |h| as real;
      router - 0.5 < r.avgRouterLatency as real <= router + 0.5
    ensures var scored := Seqs.Filter(h, HasScore);
      (scored == [] ==> r.avgHealthScore == 0)
      && (h != [] && scored != [] ==> var score := Seqs.Sum(ScoresOf(scored)) / |scored| as real;
            score - 0.5 < r.avgHealthScore as real <= score + 0.5)
    ensures var timed := Seqs.Filter(h, HasSpeed);
      (timed == [] ==> r.avgDownload == 0.0 && r.avgUpload == 0.0)
      && (timed != [] ==> var down := Seqs.Sum(Downloads(timed)) / |timed| as real;
            var up := Seqs.Sum(Uploads(timed)) / |timed| as real;
            down - 0.05 < r.avgDownload <= down + 0.05 && up - 0.05 < r.avgUpload <= up + 0.05)
  {
    if h == [] then Stats(0, 0, 0, NoFailure, 0, 0, 0.0, 0.0, map[])
    else
      var scored := Seqs.Filter(h, HasScore);
      var timed := Seqs.Filter(h, HasSpeed);
      Stats(JsRound(Mean(DnsLatencies(h))), JsRound(Mean(RouterLatencies(h))), SuccessRate(h), CommonIssue(h), |h|,
            if scored == [] then 0 else JsRound(Mean(ScoresOf(scored))),
            TenthsMean(Downloads(timed)), TenthsMean(Uploads(timed)), KindCounts(h))
  }
}
