/** The five-phase diagnostic command of the desktop application: adapter, router, ISP, DNS
    and Internet phases, the latency scores, the weighted overall score and its health band,
    the slowest-component advice, and the DNS provider health checks.

    Every network measurement (TCP connects, ICMP pings, the HTTP request, nslookup) is an
    input: `Some(ms)` when it answered, `None` when it did not. */
module DiagCmdRs {
  import opened Wrappers
  import Ranking

  datatype FailurePoint = NoFailure | Adapter | Router | Isp | Dns | Internet

  datatype Health = Excellent | Good | Fair | Poor | Bad | Down

  function Severity(h: Health): nat {
    match h
    case Excellent => 0
    case Good => 1
    case Fair => 2
    case Poor => 3
    case Bad => 4
    case Down => 5
  }

  /** How many phases passed before the failure point. */
  function Reached(f: FailurePoint): nat {
    match f
    case Adapter => 0
    case Router => 1
    case Isp => 2
    case Dns => 3
    case Internet => 4
    case NoFailure => 5
  }

  // ---------------------------------------------------------------- failure point

  /** The failure point exactly as the command leaves it: it starts at Adapter and each
      passing phase moves it to the next phase, so a failing router phase leaves it at Adapter. */
  function FailureAsWritten(adapterOk: bool, routerOk: bool, ispOk: bool, dnsOk: bool, internetOk: bool): FailurePoint {
    if !adapterOk then Adapter
    else if !routerOk then Adapter
    else if !ispOk then Isp
    else if !dnsOk then Dns
    else if !internetOk then Internet
    else NoFailure
  }

  /** With a working adapter and an unreachable router, the command blames the adapter. */
  lemma RouterFailureBlamesAdapter(ispOk: bool, dnsOk: bool, internetOk: bool)
    ensures FailureAsWritten(true, false, ispOk, dnsOk, internetOk) == Adapter
    ensures FailureOf(true, false, ispOk, dnsOk, internetOk) == Router
  {
  }

  /** The first phase that fails. */
  function FailureOf(adapterOk: bool, routerOk: bool, ispOk: bool, dnsOk: bool, internetOk: bool): (f: FailurePoint)
    ensures Reached(f) > 0 <==> adapterOk
    ensures Reached(f) > 1 <==> adapterOk && routerOk
    ensures Reached(f) > 2 <==> adapterOk && routerOk && ispOk
    ensures Reached(f) > 3 <==> adapterOk && routerOk && ispOk && dnsOk
    ensures Reached(f) > 4 <==> adapterOk && routerOk && ispOk && dnsOk && internetOk
  {
    if !adapterOk then Adapter
    else if !routerOk then Router
    else if !ispOk then Isp
    else if !dnsOk then Dns
    else if !internetOk then Internet
    else NoFailure
  }

  /** The two agree on every run except a failing router phase. */
  lemma FailureAgreesExceptRouter(adapterOk: bool, routerOk: bool, ispOk: bool, dnsOk: bool, internetOk: bool)
    ensures FailureAsWritten(adapterOk, routerOk, ispOk, dnsOk, internetOk)
            == FailureOf(adapterOk, routerOk, ispOk, dnsOk, internetOk)
        <==> !adapterOk || routerOk
  {
  }

  // ---------------------------------------------------------------- scores

  /** The latency bands of one component: excellent, good, fair and poor limits in ms. */
  datatype Bands = Bands(excellent: real, good: real, fair: real, poor: real)

  predicate Ordered(b: Bands) {
    0.0 < b.excellent < b.good < b.fair < b.poor
  }

  const RouterBands := Bands(5.0, 20.0, 50.0, 100.0)
  const IspBands := Bands(20.0, 50.0, 100.0, 200.0)
  const DnsBands := Bands(20.0, 40.0, 80.0, 150.0)
  const InternetBands := Bands(100.0, 200.0, 350.0, 500.0)

  /** `latency_to_score`: 100 up to the excellent limit (and for a zero or negative latency),
      then linear segments 95..90, 90..80 and 80..65 across the good, fair and poor bands, and
      beyond the poor limit a linear decay of 30 points per poor-limit, cut off at 0. */
  function LatencyScore(l: real, b: Bands): (r: real)
    requires Ordered(b)
    ensures 0.0 <= r <= 100.0
    ensures r == 100.0 <==> l <= b.excellent
    ensures b.excellent < l <= b.good ==> 90.0 <= r < 95.0
    ensures b.good < l <= b.fair ==> 80.0 <= r < 90.0
    ensures b.fair < l <= b.poor ==> 65.0 <= r < 80.0
    ensures b.poor < l ==> r < 65.0
    ensures l * 6.0 >= b.poor * 19.0 ==> r == 0.0
  {
    if l <= 0.0 then 100.0
    else if l <= b.excellent then 100.0
    else if l <= b.good then 95.0 - Frac(l - b.excellent, b.good - b.excellent) * 5.0
    else if l <= b.fair then 90.0 - Frac(l - b.good, b.fair - b.good) * 10.0
    else if l <= b.poor then 80.0 - Frac(l - b.fair, b.poor - b.fair) * 15.0
    else Tail(l, b.poor)
  }

  /** `x / w` for a position `x` inside a band of width `w`: a share in (0, 1]. */
  function Frac(x: real, w: real): (r: real)
    requires 0.0 < x <= w
    ensures 0.0 < r <= 1.0
    ensures r * w == x
  {
    x / w
  }

  /** The decay beyond the poor limit. */
  function Tail(l: real, poor: real): (r: real)
    requires 0.0 < poor < l
    ensures 0.0 <= r < 65.0
    ensures l * 6.0 >= poor * 19.0 ==> r == 0.0
  {
    var v := 65.0 - ((l - poor) / poor) * 30.0;
    assert ((l - poor) / poor) * poor == l - poor;
    if v > 0.0 then v else 0.0
  }

  /** A slower component never scores better. */
  lemma LatencyScoreMonotone(a: real, c: real, b: Bands)
    requires Ordered(b) && a <= c
    ensures LatencyScore(c, b) <= LatencyScore(a, b)
  {
    if a > b.excellent {
      if c <= b.good {
        FracMonotone(a - b.excellent, c - b.excellent, b.good - b.excellent);
      } else if a > b.good && c <= b.fair {
        FracMonotone(a - b.good, c - b.good, b.fair - b.good);
      } else if a > b.fair && c <= b.poor {
        FracMonotone(a - b.fair, c - b.fair, b.poor - b.fair);
      } else if a > b.poor {
        FracMonotone(a - b.poor, c - b.poor, b.poor);
      }
    }
  }

  lemma FracMonotone(x: real, y: real, w: real)
    requires 0.0 < w && x <= y
    ensures x / w <= y / w
  {
    assert y / w - x / w == (y - x) / w;
  }

  /** Rust's `f64::round` on a non-negative value: half-way cases round up. */
  function Round(x: real): (r: real)
    requires 0.0 <= x
    ensures r == r.Floor as real
    ensures x - 0.5 < r <= x + 0.5
  {
    (x + 0.5).Floor as real
  }

  /** The component scores of a run that reached the Internet phase. */
  datatype Scores = Scores(router: real, isp: real, dns: real, internet: real)

  /** The router scores 100 when it was skipped or answered in 0 ms, and a failed Internet
      phase scores a flat 40. */
  function ComponentScores(router: real, isp: real, dns: real, internet: Option<real>): (s: Scores)
    ensures router == 0.0 ==> s.router == 100.0
    ensures internet.None? ==> s.internet == 40.0
    ensures 0.0 <= s.router <= 100.0 && 0.0 <= s.isp <= 100.0
    ensures 0.0 <= s.dns <= 100.0 && 0.0 <= s.internet <= 100.0
  {
    Scores(if router == 0.0 then 100.0 else LatencyScore(router, RouterBands),
           LatencyScore(isp, IspBands),
           LatencyScore(dns, DnsBands),
           if internet.Some? then LatencyScore(internet.value, InternetBands) else 40.0)
  }

  /** The weighted score: router 10%, ISP 15%, DNS 25%, Internet 50%. */
  function Weighted(s: Scores): (r: real)
    requires 0.0 <= s.router <= 100.0 && 0.0 <= s.isp <= 100.0
    requires 0.0 <= s.dns <= 100.0 && 0.0 <= s.internet <= 100.0
    ensures 0.0 <= r <= 100.0
    ensures s.internet == 40.0 ==> r <= 70.0
    ensures r == 100.0 <==> s == Scores(100.0, 100.0, 100.0, 100.0)
  {
    s.router * 0.10 + s.isp * 0.15 + s.dns * 0.25 + s.internet * 0.50
  }

  /** The health band of the weighted (unrounded) score. */
  function HealthOf(score: real): (h: Health)
    ensures h != Down
    ensures h == Excellent <==> score >= 85.0
    ensures h == Good <==> 70.0 <= score < 85.0
    ensures h == Fair <==> 50.0 <= score < 70.0
    ensures h == Poor <==> 25.0 <= score < 50.0
    ensures h == Bad <==> score < 25.0
  {
    if score >= 85.0 then Excellent
    else if score >= 70.0 then Good
    else if score >= 50.0 then Fair
    else if score >= 25.0 then Poor
    else Bad
  }

  /** A higher score never gives a worse band. */
  lemma HealthMonotone(a: real, b: real)
    requires a <= b
    ensures Severity(HealthOf(b)) <= Severity(HealthOf(a))
  {
  }

  // ---------------------------------------------------------------- slowest component

  /** A component: its name, its latency and its slowness threshold. */
  datatype Component = Component(name: string, latency: real, threshold: real)

  predicate Slow(c: Component) { c.latency > c.threshold }

  function Ratio(c: Component): real
    requires c.threshold > 0.0
  {
    c.latency / c.threshold
  }

  /** The index of the slow component with the largest latency-to-threshold ratio; among equal
      ratios the last one, as Rust's `max_by` keeps the later of two equal elements. */
  function Slowest(cs: seq<Component>): (r: Option<nat>)
    requires forall k :: 0 <= k < |cs| ==> cs[k].threshold > 0.0
    ensures r.None? <==> forall k :: 0 <= k < |cs| ==> !Slow(cs[k])
    ensures r.Some? ==> r.value < |cs| && Slow(cs[r.value])
    ensures r.Some? ==> forall k :: 0 <= k < |cs| && Slow(cs[k]) ==> Ratio(cs[k]) <= Ratio(cs[r.value])
    ensures r.Some? ==> forall k :: r.value < k < |cs| && Slow(cs[k]) ==> Ratio(cs[k]) < Ratio(cs[r.value])
  {
    if |cs| == 0 then None
    else
      var n := |cs| - 1;
      var prev := Slowest(cs[..n]);
      assert forall k :: 0 <= k < n ==> cs[..n][k] == cs[k];
      if !Slow(cs[n]) then prev
      else if prev.None? then Some(n)
      else if Ratio(cs[prev.value]) <= Ratio(cs[n]) then Some(n)
      else prev
  }

  const RouterThreshold := 50.0
  const IspThreshold := 80.0
  const DnsThreshold := 50.0

  function LatencyData(router: real, isp: real, dns: real): (r: seq<Component>)
    ensures |r| == 3 && forall k :: 0 <= k < 3 ==> r[k].threshold > 0.0
  {
    [Component("router", router, RouterThreshold), Component("ISP", isp, IspThreshold),
     Component("DNS", dns, DnsThreshold)]
  }

  // ---------------------------------------------------------------- the run

  /** The advice of a run; the score carried is the unrounded weighted score. */
  datatype Advice =
    | NoAdapter | RouterUnreachable | NoInternet | DnsDown
    | Perfect(score: real) | Fine(score: real)
    | Acceptable(slow: Option<(string, real)>, score: real)
    | SlowLink(score: real) | VerySlow(score: real)

  /** The measurements of one run. `routerTcp80`, `routerTcp443` and `routerIcmp` are the three
      router probes; `ispTcp` and `dnsTcp` are two separate TCP connects to 1.1.1.1:53. */
  datatype Probes = Probes(
    adapter: Option<string>, gateway: Option<string>,
    routerTcp80: Option<real>, routerTcp443: Option<real>, routerIcmp: Option<real>,
    ispTcp: Option<real>, ispIcmp: Option<real>, dnsTcp: Option<real>, internet: Option<real>)

  datatype Report = Report(
    health: Health, score: real, failure: FailurePoint,
    adapterOk: bool, adapterName: string,
    routerOk: bool, routerLatency: real, ispOk: bool, ispLatency: real,
    dnsOk: bool, dnsLatency: real, internetOk: bool, internetLatency: real,
    advice: Advice)

  /** The router phase: no gateway counts as a direct connection with 0 ms; otherwise the first
      of TCP port 80, TCP port 443 and ICMP that answers. */
  function RouterProbe(p: Probes): (r: Option<real>)
    ensures p.gateway.None? ==> r == Some(0.0)
    ensures p.gateway.Some? ==> (r.None? <==> p.routerTcp80.None? && p.routerTcp443.None? && p.routerIcmp.None?)
  {
    if p.gateway.None? then Some(0.0) else p.routerTcp80.Or(p.routerTcp443).Or(p.routerIcmp)
  }

  /** The advice once every phase up to DNS passed: by health band, and for a fair connection
      the slowest component when one is over its threshold. */
  function Advise(h: Health, score: real, router: real, isp: real, dns: real): (a: Advice)
    requires h != Down
    ensures h == Fair ==> a.Acceptable?
    ensures a.Acceptable? ==> (a.slow.None? <==> router <= RouterThreshold && isp <= IspThreshold && dns <= DnsThreshold)
  {
    match h
    case Excellent => Perfect(score)
    case Good => Fine(score)
    case Fair =>
      var data := LatencyData(router, isp, dns);
      var s := Slowest(data);
      assert Slow(data[0]) <==> router > RouterThreshold;
      assert Slow(data[1]) <==> isp > IspThreshold;
      assert Slow(data[2]) <==> dns > DnsThreshold;
      Acceptable(if s.Some? then Some((data[s.value].name, data[s.value].latency)) else None, score)
    case Poor => SlowLink(score)
    case Bad => VerySlow(score)
  }

  /** `run_full_diagnostic`. A run that fails before the Internet phase returns at once with
      health Down, score 0 and the fields of the passed phases set; otherwise the weighted
      score decides the health and the advice. */
  function Run(p: Probes): (r: Report)
    ensures r.adapterOk <==> Reached(r.failure) > 0
    ensures r.routerOk <==> Reached(r.failure) > 1
    ensures r.ispOk <==> Reached(r.failure) > 2
    ensures r.dnsOk <==> Reached(r.failure) > 3
    ensures r.internetOk <==> r.failure == NoFailure
    ensures Reached(r.failure) <= 3 ==> r.health == Down && r.score == 0.0
    ensures Reached(r.failure) > 3 ==>
      (r.health != Down && 0.0 <= r.score <= 100.0 && r.score == r.score.Floor as real)
    ensures Reached(r.failure) > 3 ==>
      var w := Score(r.routerLatency, r.ispLatency, r.dnsLatency,
                     if r.internetOk then Some(r.internetLatency) else None);
      r.health == HealthOf(w) && r.score == Round(w)
    ensures r.failure == Internet ==> r.health != Excellent
  {
    var router := RouterProbe(p);
    var isp := p.ispTcp.Or(p.ispIcmp);
    var f := FailureOf(p.adapter.Some?, router.Some?, isp.Some?, p.dnsTcp.Some?, p.internet.Some?);
    var n := Reached(f);
    var name := if n > 0 then p.adapter.value else "";
    var rl := if n > 1 then router.value else 0.0;
    var il := if n > 2 then isp.value else 0.0;
    var dl := if n > 3 then p.dnsTcp.value else 0.0;
    var nl := if n > 4 then p.internet.value else 0.0;
    if n <= 3 then
      Report(Down, 0.0, f, n > 0, name, n > 1, rl, n > 2, il, false, 0.0, false, 0.0,
             if n == 0 then NoAdapter else if n == 1 then RouterUnreachable else if n == 2 then NoInternet else DnsDown)
    else
      var (h, score, advice) := Grade(rl, il, dl, p.internet);
      Report(h, score, f, true, name, true, rl, true, il, true, dl, n > 4, nl, advice)
  }

  /** `run_full_diagnostic` as a command: the adapter script and, once an adapter was found,
      the gateway script must start, or the command fails with the spawn error before any
      report; otherwise the report of `Run`. */
  function Command(adapterRan: Result<()>, gatewayRan: Result<()>, p: Probes): (r: Result<Report>)
    ensures r.Err? <==> adapterRan.Err? || (p.adapter.Some? && gatewayRan.Err?)
    ensures adapterRan.Err? ==> r == Err(adapterRan.msg)
    ensures adapterRan.Ok? && p.adapter.Some? && gatewayRan.Err? ==> r == Err(gatewayRan.msg)
    ensures r.Ok? ==> r.value == Run(p)
    ensures r.Ok? && p.adapter.None? ==> r.value.failure == Adapter && r.value.advice == NoAdapter
  {
    if adapterRan.Err? then Err(adapterRan.msg)
    else if p.adapter.Some? && gatewayRan.Err? then Err(gatewayRan.msg)
    else Ok(Run(p))
  }

  /** The unrounded weighted score of the component latencies of a run. */
  function Score(router: real, isp: real, dns: real, internet: Option<real>): (r: real)
    ensures 0.0 <= r <= 100.0
  {
    Weighted(ComponentScores(router, isp, dns, internet))
  }

  /** The health band, rounded score and advice of a run that passed the DNS phase: the band
      of the unrounded weighted score, that score rounded, and the advice for the band. */
  function Grade(router: real, isp: real, dns: real, internet: Option<real>): (g: (Health, real, Advice))
    ensures g.0 == HealthOf(Score(router, isp, dns, internet))
    ensures g.1 == Round(Score(router, isp, dns, internet))
    ensures g.2 == Advise(g.0, Score(router, isp, dns, internet), router, isp, dns)
    ensures g.0 != Down && 0.0 <= g.1 <= 100.0 && g.1 == g.1.Floor as real
    ensures internet.None? ==> g.0 != Excellent
  {
    var s := Score(router, isp, dns, internet);
    var h := HealthOf(s);
    RoundWithin(s);
    (h, Round(s), Advise(h, s, router, isp, dns))
  }

  /** Rounding keeps the order of scores. */
  lemma RoundMonotone(x: real, y: real)
    requires 0.0 <= x <= y
    ensures Round(x) <= Round(y)
  {
    var fx := (x + 0.5).Floor;
    var fy := (y + 0.5).Floor;
    assert fx as real <= x + 0.5 <= y + 0.5 < fy as real + 1.0;
    assert fx <= fy;
  }

  /** A run whose every component is at least as slow, and whose Internet phase failed in
      both or answered in both, never scores higher and never gets a better band. */
  lemma {:induction false} SlowerRunNeverScoresHigher(
    router: real, isp: real, dns: real, internet: Option<real>,
    router': real, isp': real, dns': real, internet': Option<real>)
    requires router <= router' && isp <= isp' && dns <= dns'
    requires (internet.None? && internet'.None?)
      || (internet.Some? && internet'.Some? && internet.value <= internet'.value)
    ensures Grade(router', isp', dns', internet').1 <= Grade(router, isp, dns, internet).1
    ensures Severity(Grade(router, isp, dns, internet).0) <= Severity(Grade(router', isp', dns', internet').0)
  {
    var fast := ComponentScores(router, isp, dns, internet);
    var slow := ComponentScores(router', isp', dns', internet');
    if router != 0.0 && router' != 0.0 {
      LatencyScoreMonotone(router, router', RouterBands);
    } else if router' != 0.0 {
      assert fast.router == 100.0;
    }
    LatencyScoreMonotone(isp, isp', IspBands);
    LatencyScoreMonotone(dns, dns', DnsBands);
    if internet.Some? {
      LatencyScoreMonotone(internet.value, internet'.value, InternetBands);
    }
    assert slow.router <= fast.router && slow.isp <= fast.isp;
    assert slow.dns <= fast.dns && slow.internet <= fast.internet;
    var a := Score(router, isp, dns, internet);
    var b := Score(router', isp', dns', internet');
    assert b <= a;
    RoundMonotone(b, a);
    HealthMonotone(b, a);
  }

  lemma RoundWithin(x: real)
    requires 0.0 <= x <= 100.0
    ensures 0.0 <= Round(x) <= 100.0
  {
    var f := (x + 0.5).Floor;
    assert f as real <= x + 0.5 <= 100.5;
    assert f <= 100;
  }

  /** A run in which every phase answers instantly scores 100 and is excellent. */
  lemma InstantRunIsPerfect(p: Probes)
    requires p.adapter.Some? && p.gateway.None?
    requires p.ispTcp == Some(0.0) && p.dnsTcp == Some(0.0) && p.internet == Some(0.0)
    ensures Run(p).failure == NoFailure && Run(p).score == 100.0 && Run(p).health == Excellent
  {
    var s := ComponentScores(0.0, 0.0, 0.0, Some(0.0));
    assert s == Scores(100.0, 100.0, 100.0, 100.0);
  }

  // ---------------------------------------------------------------- DNS provider checks

  const HealthProviders: seq<(string, string)> := [
    ("Cloudflare", "1.1.1.1"), ("Google", "8.8.8.8"), ("Quad9", "9.9.9.9"),
    ("OpenDNS", "208.67.222.222"), ("AdGuard", "94.140.14.14"), ("CleanBrowsing", "185.228.168.9")]

  datatype DnsHealth = DnsHealth(provider: string, server: string, online: bool, latencyMs: real, resolves: bool)

  /** One provider: the elapsed ping time counts only when it answered, and the lookup is only
      attempted when it did. */
  function ProviderHealth(provider: string, server: string, ping: Option<nat>, lookupOk: bool): (r: DnsHealth)
    ensures r.online <==> ping.Some?
    ensures !r.online ==> r.latencyMs == 0.0 && !r.resolves
  {
    DnsHealth(provider, server, ping.Some?, if ping.Some? then ping.value as real else 0.0, ping.Some? && lookupOk)
  }

  /** The sort key: online servers first, then the faster first; offline servers tie. */
  function HealthKeys(rs: seq<DnsHealth>): (keys: seq<Ranking.Key>)
    ensures |keys| == |rs|
    ensures forall i :: 0 <= i < |rs| ==>
      keys[i] == Ranking.Key(if rs[i].online then 1 else 0, if rs[i].online then -rs[i].latencyMs else 0.0)
  {
    seq(|rs|, i requires 0 <= i < |rs| =>
      Ranking.Key(if rs[i].online then 1 else 0, if rs[i].online then -rs[i].latencyMs else 0.0))
  }

  /** `check_dns_health`'s stable sort: a permutation of the results with every online server
      before every offline one and the online ones in ascending latency. */
  function SortHealth(rs: seq<DnsHealth>): (r: seq<DnsHealth>)
    ensures |r| == |rs| && multiset(r) == multiset(rs)
    ensures forall a, b :: 0 <= a < b < |r| && r[b].online ==> r[a].online
    ensures forall a, b :: 0 <= a < b < |r| && r[b].online ==> r[a].latencyMs <= r[b].latencyMs
  {
    var keys := HealthKeys(rs);
    Ranking.StableSortSpec(rs, keys);
    var order := Ranking.Order(keys);
    var r := Ranking.StableSort(rs, keys);
    forall a, b | 0 <= a < b < |r|
      ensures r[b].online ==> r[a].online && r[a].latencyMs <= r[b].latencyMs
    {
      assert r[a] == rs[order[a]] && r[b] == rs[order[b]];
      assert Ranking.Precedes(keys, order[a], order[b]);
    }
    r
  }

  /** Offline servers tie under the sort, so among them the provider table order is kept. */
  lemma OfflineKeepTableOrder(rs: seq<DnsHealth>, a: nat, b: nat)
    requires a < b < |rs| && !rs[a].online && !rs[b].online
    ensures Ranking.Precedes(HealthKeys(rs), a, b)
  {
  }

  /** `check_dns_health` over the six providers, given each one's ping time and lookup result. */
  function CheckDnsHealth(pings: seq<Option<nat>>, lookups: seq<bool>): (r: seq<DnsHealth>)
    requires |pings| == |HealthProviders| && |lookups| == |HealthProviders|
    ensures |r| == |HealthProviders|
    ensures forall a, b :: 0 <= a < b < |r| && r[b].online ==> r[a].online
    ensures forall a, b :: 0 <= a < b < |r| && r[b].online ==> r[a].latencyMs <= r[b].latencyMs
    ensures forall k :: 0 <= k < |r| ==> r[k].online || (r[k].latencyMs == 0.0 && !r[k].resolves)
  {
    var rs := seq(|HealthProviders|, k requires 0 <= k < |HealthProviders| =>
      ProviderHealth(HealthProviders[k].0, HealthProviders[k].1, pings[k], lookups[k]));
    var r := SortHealth(rs);
    forall k | 0 <= k < |r| ensures r[k].online || (r[k].latencyMs == 0.0 && !r[k].resolves) {
      assert r[k] in multiset(rs);
    }
    r
  }

  /** The result of checking one server. */
  datatype SingleHealth = SingleHealth(latencyMs: real, success: bool, resolves: bool)

  /** `check_single_dns_health`: an address that does not parse is an error; a TCP connect to
      port 53 counts as resolving; otherwise a real lookup decides, and when both fail the
      latency is the sentinel 999. */
  function CheckSingleDnsHealth(addressOk: bool, tcp: Option<nat>, lookupOk: bool, lookupElapsed: nat): (r: Result<SingleHealth>)
    ensures r.Err? <==> !addressOk
    ensures r.Ok? ==> (r.value.success <==> tcp.Some? || lookupOk)
    ensures r.Ok? ==> (r.value.resolves <==> tcp.Some? || lookupOk)
    ensures r.Ok? && !r.value.success ==> r.value.latencyMs == 999.0
    ensures r.Ok? && tcp.Some? ==> r.value.latencyMs == tcp.value as real
  {
    if !addressOk then Err("Invalid address")
    else
      var success := tcp.Some?;
      var resolves := if !success then lookupOk else true;
      Ok(SingleHealth(
        if success then tcp.value as real else if resolves then lookupElapsed as real else 999.0,
        success || resolves, resolves))
  }
}
