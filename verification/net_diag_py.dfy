/** The Windows network diagnostic: a chain of phases (adapter, router, ISP, DNS) that stops
    at the first failing phase, the latency bands of the overall health, and the advice text.

    Process outputs (ping, nslookup, PowerShell) are inputs: a ping is the pair (exit status
    zero, standard output), a DNS lookup is `Some(elapsed)` exactly when it resolved. */
module NetDiagPy {
  import opened Wrappers
  import Seqs
  import Text
  import PingOutput

  datatype FailurePoint = NoFailure | Adapter | Router | Isp | Dns | Destination | Unknown

  datatype Health = Excellent | Good | Fair | Poor | Bad | Down

  /** Position of a health value from best to worst. */
  function Severity(h: Health): nat {
    match h
    case Excellent => 0
    case Good => 1
    case Fair => 2
    case Poor => 3
    case Bad => 4
    case Down => 5
  }

  /** A ping outcome: the latency (when parsed) and whether the ping counts as a success. */
  datatype Ping = Ping(latency: Option<real>, ok: bool)

  /** `_ping_target`: an empty target fails without running anything; otherwise a zero exit
      status and an "Average = Nms" figure, or failing that a per-reply "time=Nms" figure,
      give the latency. */
  function PingTarget(target: string, exitOk: bool, stdout: string): (r: Ping)
    ensures target == "" ==> r == Ping(None, false)
    ensures r.ok <==> (target != "" && exitOk
      && (PingOutput.SearchAverage(stdout).Some? || PingOutput.SearchReplyTime(stdout).Some?))
    ensures r.ok <==> r.latency.Some?
    ensures r.ok && PingOutput.SearchAverage(stdout).Some? ==>
      r.latency == Some(PingOutput.SearchAverage(stdout).value as real)
    ensures r.ok && PingOutput.SearchAverage(stdout).None? ==>
      r.latency == Some(PingOutput.SearchReplyTime(stdout).value as real)
  {
    if target == "" || !exitOk then Ping(None, false)
    else match PingOutput.SearchAverage(stdout)
      case Some(n) => Ping(Some(n as real), true)
      case None =>
        match PingOutput.SearchReplyTime(stdout)
        case Some(n) => Ping(Some(n as real), true)
        case None => Ping(None, false)
  }

  /** The external targets the ISP phase pings, in order. */
  const IspTargets: seq<(string, string)> :=
    [("cloudflare", "1.1.1.1"), ("google", "8.8.8.8"), ("quad9", "9.9.9.9"), ("level3", "4.2.2.2")]

  predicate Usable(p: Ping) { p.ok && p.latency.Some? }

  /** The latencies of the usable pings, in order. */
  function UsableLatencies(pings: seq<Ping>): (r: seq<real>)
    ensures |r| <= |pings|
  {
    if |pings| == 0 then []
    else (if Usable(pings[0]) then [pings[0].latency.value] else []) + UsableLatencies(pings[1..])
  }

  /** The ISP loop: collects usable latencies and stops once it has `want` of them. */
  function Collect(pings: seq<Ping>, want: nat): (r: seq<real>)
    ensures |r| <= want
  {
    if |pings| == 0 || want == 0 then []
    else if Usable(pings[0]) then [pings[0].latency.value] + Collect(pings[1..], want - 1)
    else Collect(pings[1..], want)
  }

  /** The loop keeps exactly the first `want` usable latencies. */
  lemma {:induction false} CollectTakesFirst(pings: seq<Ping>, want: nat)
    ensures Collect(pings, want) == Seqs.Take(UsableLatencies(pings), want)
  {
    if |pings| > 0 && want > 0 {
      var rest := UsableLatencies(pings[1..]);
      assert UsableLatencies(pings) == (if Usable(pings[0]) then [pings[0].latency.value] else []) + rest;
      if Usable(pings[0]) {
        CollectTakesFirst(pings[1..], want - 1);
        Seqs.TakeCons(pings[0].latency.value, rest, want);
      } else {
        CollectTakesFirst(pings[1..], want);
        assert UsableLatencies(pings) == rest;
      }
    }
  }

  lemma {:induction false} NoUsableNoLatency(pings: seq<Ping>)
    ensures UsableLatencies(pings) == [] <==> forall k :: 0 <= k < |pings| ==> !Usable(pings[k])
  {
    if |pings| > 0 {
      NoUsableNoLatency(pings[1..]);
      if !Usable(pings[0]) {
        forall k | 1 <= k < |pings| ensures pings[k] == pings[1..][k - 1] {
        }
      }
    }
  }

  /** `_check_isp`: the average of the first two usable pings, or a failure when none is. */
  function CheckIsp(pings: seq<Ping>): (r: Ping)
    ensures r.ok <==> exists k :: 0 <= k < |pings| && Usable(pings[k])
    ensures r.ok ==> r.latency == Some(Seqs.Mean(Seqs.Take(UsableLatencies(pings), 2)))
    ensures !r.ok ==> r.latency.None?
  {
    var lats := Collect(pings, 2);
    CollectTakesFirst(pings, 2);
    NoUsableNoLatency(pings);
    if |lats| > 0 then Ping(Some(Seqs.Sum(lats) / |lats| as real), true) else Ping(None, false)
  }

  const TestDomains: seq<string> := ["google.com", "microsoft.com", "cloudflare.com"]
  const PublicDns: seq<string> := ["8.8.8.8", "1.1.1.1"]

  /** The servers the DNS phase tries: the first two configured, or two public ones when none is. */
  function DnsCandidates(servers: seq<string>): (r: seq<string>)
    ensures servers == [] ==> r == PublicDns
    ensures servers != [] ==> r == Seqs.Take(servers, 2)
    ensures |r| <= 2
  {
    Seqs.Take(if servers == [] then PublicDns else servers, 2)
  }

  /** The lookups in the order they are tried: every server for the first domain, then the next. */
  function Attempts(domains: seq<string>, servers: seq<string>): (r: seq<(string, string)>)
    ensures |r| == |domains| * |servers|
    ensures forall k :: 0 <= k < |r| ==> r[k].0 in domains && r[k].1 in servers
  {
    if |domains| == 0 then []
    else
      var first := seq(|servers|, s requires 0 <= s < |servers| => (domains[0], servers[s]));
      var rest := Attempts(domains[1..], servers);
      assert |domains| * |servers| == |servers| + (|domains| - 1) * |servers|;
      assert forall k :: 0 <= k < |rest| ==> rest[k].0 in domains;
      first + rest
  }

  /** Domain `d` on server `s` is the lookup tried at position `d * |servers| + s`. */
  lemma {:induction false} AttemptAt(domains: seq<string>, servers: seq<string>, d: nat, s: nat)
    requires d < |domains| && s < |servers|
    ensures d * |servers| + s < |Attempts(domains, servers)|
    ensures Attempts(domains, servers)[d * |servers| + s] == (domains[d], servers[s])
  {
    var rest := Attempts(domains[1..], servers);
    if d > 0 {
      AttemptAt(domains[1..], servers, d - 1, s);
      assert d * |servers| + s == |servers| + ((d - 1) * |servers| + s);
    }
  }

  /** `_check_dns`: the elapsed time of the first lookup that resolves, or a failure. */
  function CheckDns(servers: seq<string>, lookup: (string, string) -> Option<real>): (r: Ping)
    ensures var tries := Attempts(TestDomains, DnsCandidates(servers));
      r.ok <==> exists k :: 0 <= k < |tries| && lookup(tries[k].0, tries[k].1).Some?
    ensures r.ok <==> r.latency.Some?
  {
    var tries := Attempts(TestDomains, DnsCandidates(servers));
    match Seqs.FirstIndex(tries, (t: (string, string)) => lookup(t.0, t.1).Some?)
    case None => Ping(None, false)
    case Some(k) => Ping(lookup(tries[k].0, tries[k].1), true)
  }

  /** The first lookup tried is the first domain on the first server, so when that one
      resolves its time is reported. */
  lemma FirstLookupWins(servers: seq<string>, lookup: (string, string) -> Option<real>)
    requires lookup(TestDomains[0], DnsCandidates(servers)[0]).Some?
    ensures CheckDns(servers, lookup).latency == lookup(TestDomains[0], DnsCandidates(servers)[0])
  {
    AttemptAt(TestDomains, DnsCandidates(servers), 0, 0);
  }

  /** `_calculate_health`: the ISP latency when it is non-zero, else the router latency,
      banded at 20, 50, 100 and 200 ms; no latency at all means Down. */
  function CalculateHealth(router: Option<real>, isp: Option<real>): (r: Health)
    ensures (isp.None? || isp == Some(0.0)) && router.None? <==> r == Down
  {
    var primary := if isp.Some? && isp.value != 0.0 then isp else router;
    match primary
    case None => Down
    case Some(l) => Band(l)
  }

  /** The latency bands. */
  function Band(l: real): (r: Health)
    ensures r != Down
    ensures r == Excellent <==> l < 20.0
    ensures r == Good <==> 20.0 <= l < 50.0
    ensures r == Fair <==> 50.0 <= l < 100.0
    ensures r == Poor <==> 100.0 <= l < 200.0
    ensures r == Bad <==> 200.0 <= l
  {
    if l < 20.0 then Excellent
    else if l < 50.0 then Good
    else if l < 100.0 then Fair
    else if l < 200.0 then Poor
    else Bad
  }

  /** A higher latency never yields a better band. */
  lemma BandMonotone(a: real, b: real)
    requires a <= b
    ensures Severity(Band(a)) <= Severity(Band(b))
  {
  }

  const OptimalAdvice := "Tu conexión está óptima. No se requieren cambios."
  const RouterAdvice := "Considera acercarte al router o usar cable Ethernet"
  const DnsAdvice := "Prueba cambiar a DNS más rápido (1.1.1.1)"
  const WifiAdvice := "Verifica interferencias WiFi o congestión de red"
  const DefaultAdvice := "Monitorea la conexión para detectar patrones"

  /** The advice clauses for a non-excellent connection, in order. */
  function Clauses(h: Health, router: Option<real>, dns: Option<real>): (r: seq<string>)
    ensures RouterAdvice in r <==> router.Some? && router.value > 10.0
    ensures DnsAdvice in r <==> dns.Some? && dns.value > 100.0
    ensures WifiAdvice in r <==> h == Poor || h == Bad
    ensures |r| <= 3
  {
    (if router.Some? && router.value > 10.0 then [RouterAdvice] else [])
    + (if dns.Some? && dns.value > 100.0 then [DnsAdvice] else [])
    + (if h == Poor || h == Bad then [WifiAdvice] else [])
  }

  /** `_get_health_recommendation`: the fixed praise for an excellent connection, otherwise
      the clauses that apply joined by ". ", or the default advice when none applies. */
  function Recommendation(h: Health, router: Option<real>, dns: Option<real>): (r: string)
    ensures h == Excellent ==> r == OptimalAdvice
    ensures h != Excellent && Clauses(h, router, dns) == [] ==> r == DefaultAdvice
    ensures h != Excellent && Clauses(h, router, dns) != [] ==>
      r == Text.Join(Clauses(h, router, dns), ". ") && Clauses(h, router, dns)[0] <= r
  {
    if h == Excellent then OptimalAdvice
    else
      var cs := Clauses(h, router, dns);
      if cs == [] then DefaultAdvice
      else
        Text.JoinStartsWithFirst(cs, ". ");
        Text.Join(cs, ". ")
  }

  /** A slow router, a slow DNS and a poor link give all three clauses, in that order. */
  lemma AllThreeClauses(h: Health, router: real, dns: real)
    requires h == Poor || h == Bad
    requires router > 10.0 && dns > 100.0
    ensures Recommendation(h, Some(router), Some(dns)) == RouterAdvice + ". " + DnsAdvice + ". " + WifiAdvice
  {
    var cs := Clauses(h, Some(router), Some(dns));
    assert cs == [RouterAdvice, DnsAdvice, WifiAdvice];
    assert cs[..2] == [RouterAdvice, DnsAdvice];
    assert cs[..2][..1] == [RouterAdvice];
    assert Text.Join(cs[..2], ". ") == RouterAdvice + ". " + DnsAdvice;
    assert Text.Join(cs, ". ") == Text.Join(cs[..2], ". ") + ". " + WifiAdvice;
  }

  /** How many phases passed before the failure point: adapter 0, router 1, ISP 2, DNS 3,
      and 4 when every phase passed. */
  function Reached(f: FailurePoint): nat {
    match f
    case Adapter => 0
    case Router => 1
    case Isp => 2
    case Dns => 3
    case _ => 4
  }

  /** The phase inputs of one run. */
  datatype Probes = Probes(
    info: (string, string, seq<string>),
    adapterUp: bool,
    routerPing: (bool, string),
    ispPings: seq<(bool, string)>,
    lookup: (string, string) -> Option<real>)

  datatype Report = Report(
    failure: FailurePoint, health: Health,
    adapterOk: bool, routerLatency: Option<real>, routerOk: bool,
    ispLatency: Option<real>, ispOk: bool, dnsLatency: Option<real>, dnsOk: bool,
    adapterName: string, gateway: string, dnsServers: seq<string>, recommendation: string)

  function IspPings(raw: seq<(bool, string)>): seq<Ping> {
    var n := if |raw| < |IspTargets| then |raw| else |IspTargets|;
    seq(n, k requires 0 <= k < n => PingTarget(IspTargets[k].1, raw[k].0, raw[k].1))
  }

  /** The first phase that fails, given the outcome of each phase. */
  function FailureOf(found: bool, up: bool, routerOk: bool, ispOk: bool, dnsOk: bool): (f: FailurePoint)
    ensures Reached(f) > 0 <==> found && up
    ensures Reached(f) > 1 <==> found && up && routerOk
    ensures Reached(f) > 2 <==> found && up && routerOk && ispOk
    ensures Reached(f) > 3 <==> found && up && routerOk && ispOk && dnsOk
    ensures f != Destination && f != Unknown
  {
    if !found || !up then Adapter
    else if !routerOk then Router
    else if !ispOk then Isp
    else if !dnsOk then Dns
    else NoFailure
  }

  /** The advice given at each failure point. */
  function FailureAdvice(f: FailurePoint, found: bool): string {
    match f
    case Adapter =>
      if found then "Reinicia el adaptador o actualiza drivers" else "Verifica que tu WiFi o Ethernet esté conectado"
    case Router => "Verifica tu conexión WiFi o cable Ethernet. Reinicia el router si es necesario."
    case Isp => "El problema está en tu ISP o la configuración del router. Contacta a tu proveedor."
    case _ => "Cambia a DNS más rápido (Cloudflare 1.1.1.1 o Google 8.8.8.8)"
  }

  /** `run_full_diagnostic`. The phases run in order and the first failing one decides the
      failure point: a missing or down adapter, an unreachable router and an unreachable
      Internet give health Down; a failing DNS gives Poor. A phase's latency is reported only
      when the phase ran, and only a full pass computes the health and its advice. */
  function Run(requested: string, p: Probes): (r: Report)
    ensures r.failure != Destination && r.failure != Unknown
    ensures Reached(r.failure) <= 2 ==> r.health == Down
    ensures r.failure == Dns ==> r.health == Poor
    ensures r.adapterOk <==> Reached(r.failure) > 0
    ensures r.routerOk <==> Reached(r.failure) > 1
    ensures r.ispOk <==> Reached(r.failure) > 2
    ensures r.dnsOk <==> Reached(r.failure) > 3
    ensures Reached(r.failure) == 0 ==> r.routerLatency.None?
    ensures Reached(r.failure) <= 1 ==> r.ispLatency.None?
    ensures Reached(r.failure) <= 2 ==> r.dnsLatency.None?
    ensures r.failure == NoFailure ==>
      (r.health == CalculateHealth(r.routerLatency, r.ispLatency)
       && r.recommendation == Recommendation(r.health, r.routerLatency, r.dnsLatency))
  {
    var name := if requested != "" then requested else p.info.0;
    var found := name != "";
    var router := PingTarget(p.info.1, p.routerPing.0, p.routerPing.1);
    var isp := CheckIsp(IspPings(p.ispPings));
    var dns := CheckDns(p.info.2, p.lookup);
    var f := FailureOf(found, p.adapterUp, router.ok, isp.ok, dns.ok);
    Assemble(f, found, router, isp, dns, name, if found then p.info.1 else "", if found then p.info.2 else [])
  }

  /** The report of a run whose failure point is known: the latencies of the phases that
      ran, the health and the advice that go with the failure point. */
  function Assemble(f: FailurePoint, found: bool, router: Ping, isp: Ping, dns: Ping,
                    name: string, gateway: string, servers: seq<string>): (r: Report)
    requires f != Destination && f != Unknown
    ensures r.failure == f
    ensures Reached(f) <= 2 ==> r.health == Down
    ensures f == Dns ==> r.health == Poor
    ensures r.adapterOk == (Reached(f) > 0) && r.routerOk == (Reached(f) > 1)
    ensures r.ispOk == (Reached(f) > 2) && r.dnsOk == (Reached(f) > 3)
    ensures r.routerLatency == (if Reached(f) > 0 then router.latency else None)
    ensures r.ispLatency == (if Reached(f) > 1 then isp.latency else None)
    ensures r.dnsLatency == (if Reached(f) > 2 then dns.latency else None)
    ensures f == NoFailure ==>
      (r.health == CalculateHealth(r.routerLatency, r.ispLatency)
       && r.recommendation == Recommendation(r.health, r.routerLatency, r.dnsLatency))
  {
    var reached := Reached(f);
    var routerLatency := if reached > 0 then router.latency else None;
    var ispLatency := if reached > 1 then isp.latency else None;
    var dnsLatency := if reached > 2 then dns.latency else None;
    var health := HealthAt(f, routerLatency, ispLatency);
    Report(f, health, reached > 0, routerLatency, reached > 1, ispLatency, reached > 2,
           dnsLatency, reached > 3, name, gateway, servers,
           Advice(f, found, health, routerLatency, dnsLatency))
  }

  /** The health of a report: computed after a full pass, Poor when only DNS failed, and
      Down for any earlier failure. */
  function HealthAt(f: FailurePoint, router: Option<real>, isp: Option<real>): (h: Health)
    ensures f == NoFailure ==> h == CalculateHealth(router, isp)
    ensures f == Dns ==> h == Poor
    ensures f != NoFailure && f != Dns ==> h == Down
    ensures Reached(f) <= 2 ==> h == Down
  {
    if f == NoFailure then CalculateHealth(router, isp) else if f == Dns then Poor else Down
  }

  /** The advice of a report: the health's own advice after a full pass, else the failure
      point's. */
  function Advice(f: FailurePoint, found: bool, h: Health, router: Option<real>, dns: Option<real>): (r: string)
    ensures f == NoFailure ==> r == Recommendation(h, router, dns)
    ensures f != NoFailure ==> r == FailureAdvice(f, found)
  {
    if f == NoFailure then Recommendation(h, router, dns) else FailureAdvice(f, found)
  }

  /** A run that passes every phase has measured a router and an ISP latency, so its health
      is never Down. */
  lemma FullPassIsUp(requested: string, p: Probes)
    requires Run(requested, p).failure == NoFailure
    ensures Run(requested, p).health != Down
  {
  }

  /** The diagnostic object: only a full pass replaces the remembered last result. */
  function Diagnose(last: Option<Report>, requested: string, p: Probes): (r: (Report, Option<Report>))
    ensures r.0 == Run(requested, p)
    ensures r.0.failure == NoFailure ==> r.1 == Some(r.0)
    ensures r.0.failure != NoFailure ==> r.1 == last
  {
    var rep := Run(requested, p);
    (rep, if rep.failure == NoFailure then Some(rep) else last)
  }
}
