/** The shared diagnostic service of the desktop application (used by the commands and the
    tray): a quick connectivity check and a four-phase diagnostic whose health comes from the
    largest measured latency.

    The PowerShell probes are inputs. A ping is the number PowerShell printed, already parsed
    (`None` when the command failed or its output was not a number); the DNS probe is the
    elapsed time when the lookup printed OK. */
module DiagSvcRs {
  import opened Wrappers

  datatype Health = Excellent | Good | Fair | Poor | Bad | Down

  function Severity(h: Health): nat {
    match h
    case Excellent => 0
    case Good => 1
    case Fair => 2
    case Poor => 3
    case Bad => 4
    case Down => 5
  }

  datatype FailurePoint = NoFailure | Adapter | Router | Isp | Dns

  /** `ping_host`: the parsed response time, kept only when it is not negative (PowerShell
      prints -1 when there was no reply). */
  function PingHost(parsed: Option<real>): (r: Option<real>)
    ensures r.Some? <==> parsed.Some? && parsed.value >= 0.0
    ensures r.Some? ==> r == parsed
  {
    if parsed.Some? && parsed.value >= 0.0 then parsed else None
  }

  datatype QuickMessage = Fast | Acceptable | SlowLink | NoConnection

  datatype QuickResult = QuickResult(connected: bool, latencyMs: real, message: QuickMessage)

  /** `quick_check`: connected exactly when 1.1.1.1 answered in more than 0 ms; the message
      bands are below 50 ms, below 100 ms, and slower. */
  function QuickCheck(parsed: Option<real>): (r: QuickResult)
    ensures r.connected <==> parsed.Some? && parsed.value > 0.0
    ensures !r.connected ==> r == QuickResult(false, 0.0, NoConnection)
    ensures r.connected ==> r.latencyMs == parsed.value
    ensures r.message == Fast <==> r.connected && r.latencyMs < 50.0
    ensures r.message == Acceptable <==> r.connected && 50.0 <= r.latencyMs < 100.0
    ensures r.message == SlowLink <==> r.connected && 100.0 <= r.latencyMs
  {
    match PingHost(parsed)
    case Some(l) =>
      if l > 0.0 then
        QuickResult(true, l, if l < 50.0 then Fast else if l < 100.0 then Acceptable else SlowLink)
      else QuickResult(false, 0.0, NoConnection)
    case None => QuickResult(false, 0.0, NoConnection)
  }

  /** How many phases passed before the failure point. */
  function Reached(f: FailurePoint): nat {
    match f
    case Adapter => 0
    case Router => 1
    case Isp => 2
    case Dns => 3
    case NoFailure => 4
  }

  /** The failure point as the service leaves it: it starts at Adapter and only the router, ISP
      and DNS phases move it on, so a failing router phase leaves it at Adapter. */
  function FailureAsWritten(adapterOk: bool, routerOk: bool, ispOk: bool, dnsOk: bool): FailurePoint {
    if !adapterOk || !routerOk then Adapter
    else if !ispOk then Isp
    else if !dnsOk then Dns
    else NoFailure
  }

  /** The first phase that fails. */
  function FailureOf(adapterOk: bool, routerOk: bool, ispOk: bool, dnsOk: bool): (f: FailurePoint)
    ensures Reached(f) > 0 <==> adapterOk
    ensures Reached(f) > 1 <==> adapterOk && routerOk
    ensures Reached(f) > 2 <==> adapterOk && routerOk && ispOk
    ensures Reached(f) > 3 <==> adapterOk && routerOk && ispOk && dnsOk
  {
    if !adapterOk then Adapter
    else if !routerOk then Router
    else if !ispOk then Isp
    else if !dnsOk then Dns
    else NoFailure
  }

  /** With a working adapter and a failing router phase the service blames the adapter. */
  lemma RouterFailureBlamesAdapter(ispOk: bool, dnsOk: bool)
    ensures FailureAsWritten(true, false, ispOk, dnsOk) == Adapter
    ensures FailureOf(true, false, ispOk, dnsOk) == Router
  {
  }

  /** The two agree on every run except a failing router phase. */
  lemma FailureAgreesExceptRouter(adapterOk: bool, routerOk: bool, ispOk: bool, dnsOk: bool)
    ensures FailureAsWritten(adapterOk, routerOk, ispOk, dnsOk) == FailureOf(adapterOk, routerOk, ispOk, dnsOk)
        <==> !adapterOk || routerOk
  {
  }

  function Max(a: real, b: real): (r: real)
    ensures r >= a && r >= b && (r == a || r == b)
  {
    if a >= b then a else b
  }

  /** The health band of the largest latency. */
  function HealthOf(maxLatency: real): (h: Health)
    ensures h != Down
    ensures h == Excellent <==> maxLatency < 20.0
    ensures h == Good <==> 20.0 <= maxLatency < 50.0
    ensures h == Fair <==> 50.0 <= maxLatency < 100.0
    ensures h == Poor <==> 100.0 <= maxLatency < 200.0
    ensures h == Bad <==> 200.0 <= maxLatency
  {
    if maxLatency < 20.0 then Excellent
    else if maxLatency < 50.0 then Good
    else if maxLatency < 100.0 then Fair
    else if maxLatency < 200.0 then Poor
    else Bad
  }

  /** The health of three latencies: no better than the health of any one of them. */
  function HealthOfLatencies(router: real, isp: real, dns: real): (h: Health)
    ensures Severity(h) >= Severity(HealthOf(router))
    ensures Severity(h) >= Severity(HealthOf(isp))
    ensures Severity(h) >= Severity(HealthOf(dns))
    ensures h == HealthOf(router) || h == HealthOf(isp) || h == HealthOf(dns)
  {
    var m := Max(Max(router, isp), dns);
    HealthMonotone(router, m);
    HealthMonotone(isp, m);
    HealthMonotone(dns, m);
    HealthOf(m)
  }

  /** A larger latency never gives a better band. */
  lemma HealthMonotone(a: real, b: real)
    requires a <= b
    ensures Severity(HealthOf(a)) <= Severity(HealthOf(b))
  {
  }

  /** The advice of a run: one text per early return, and one per health band. */
  datatype Advice =
    | NoAdapter | RouterZero | RouterSilent | NoGateway | IspZero | IspSilent | DnsZero | DnsError
    | ForHealth(text: string)

  /** The recommendation written for each health band. */
  function BandText(h: Health): string {
    match h
    case Excellent => "Tu conexión está funcionando perfectamente. 🚀"
    case Good => "Tu conexión está bien. No se requieren cambios."
    case Fair => "Conexión aceptable. Considera optimizar tu DNS."
    case Poor => "Conexión lenta. Prueba cambiar DNS y aplicar optimizaciones."
    case Bad => "Conexión muy lenta. Verifica tu ISP o aplica perfil agresivo."
    case Down => "Sin conexión."
  }

  /** The band a recommendation was written for, if it is one of the band texts. */
  function BandOfText(text: string): Option<Health> {
    if text == BandText(Excellent) then Some(Excellent)
    else if text == BandText(Good) then Some(Good)
    else if text == BandText(Fair) then Some(Fair)
    else if text == BandText(Poor) then Some(Poor)
    else if text == BandText(Bad) then Some(Bad)
    else if text == BandText(Down) then Some(Down)
    else None
  }

  /** The advice of a full pass: the text of its health band, which reads back as that band,
      so different bands give different texts. */
  function HealthAdvice(h: Health): (a: Advice)
    ensures a.ForHealth? && a.text != []
    ensures BandOfText(a.text) == Some(h)
  {
    // The texts differ in length, except the Good and Fair ones, which differ in their next-to-last letter.
    assert |BandText(Excellent)| == 45 && |BandText(Good)| == 47 && |BandText(Fair)| == 47;
    assert |BandText(Poor)| == 60 && |BandText(Bad)| == 61 && |BandText(Down)| == 13;
    assert BandText(Good)[45] != BandText(Fair)[45];
    ForHealth(BandText(h))
  }

  /** The measurements of one run. `adapter` and `gateway` are the trimmed PowerShell outputs
      (empty when nothing was found); the pings are parsed responses as for `PingHost`. */
  datatype Probes = Probes(adapter: Option<string>, gateway: Option<string>,
                           routerPing: Option<real>, ispPing: Option<real>, dns: Option<real>)

  datatype Report = Report(
    health: Health, failure: FailurePoint, adapterOk: bool, adapterName: string,
    routerOk: bool, routerLatency: real, ispOk: bool, ispLatency: real,
    dnsOk: bool, dnsLatency: real, advice: Advice)

  /** A phase passes when its probe answered with more than 0 ms. */
  predicate Passes(l: Option<real>) { l.Some? && l.value > 0.0 }

  /** Which early return a failed phase takes: zero milliseconds and no answer are told apart. */
  function EarlyAdvice(f: FailurePoint, p: Probes): Advice {
    match f
    case Adapter => NoAdapter
    case Router =>
      if p.gateway.None? || p.gateway == Some("") then NoGateway
      else if PingHost(p.routerPing).Some? then RouterZero else RouterSilent
    case Isp => if PingHost(p.ispPing).Some? then IspZero else IspSilent
    case _ => if p.dns.Some? then DnsZero else DnsError
  }

  /** `run_full_diagnostic`. Each phase that fails returns at once with health Down and the
      fields of the passed phases set; a full pass takes its health from the largest of the
      router, ISP and DNS latencies and its advice from that health. */
  function Run(p: Probes): (r: Report)
    ensures r.adapterOk <==> Reached(r.failure) > 0
    ensures r.routerOk <==> Reached(r.failure) > 1
    ensures r.ispOk <==> Reached(r.failure) > 2
    ensures r.dnsOk <==> r.failure == NoFailure
    ensures r.adapterOk <==> p.adapter.Some? && p.adapter.value != ""
    ensures r.failure != NoFailure <==> r.health == Down
    ensures r.routerOk ==> r.routerLatency > 0.0
    ensures r.ispOk ==> r.ispLatency > 0.0
    ensures r.failure == NoFailure ==>
      (r.health == HealthOfLatencies(r.routerLatency, r.ispLatency, r.dnsLatency)
       && r.advice == HealthAdvice(r.health))
  {
    var adapterOk := p.adapter.Some? && p.adapter.value != "";
    var routerOk := p.gateway.Some? && p.gateway.value != "" && Passes(PingHost(p.routerPing));
    var ispOk := Passes(PingHost(p.ispPing));
    var f := FailureOf(adapterOk, routerOk, ispOk, Passes(p.dns));
    var n := Reached(f);
    var rl := if n > 1 then p.routerPing.value else 0.0;
    var il := if n > 2 then p.ispPing.value else 0.0;
    var dl := if n > 3 then p.dns.value else 0.0;
    var h := if n > 3 then HealthOfLatencies(rl, il, dl) else Down;
    Report(h, f, n > 0, if n > 0 then p.adapter.value else "", n > 1, rl, n > 2, il, n > 3, dl,
           if n > 3 then HealthAdvice(h) else EarlyAdvice(f, p))
  }

  /** A full pass in which every latency is under 20 ms is excellent. */
  lemma FastPassIsExcellent(p: Probes)
    requires Run(p).failure == NoFailure
    requires Run(p).routerLatency < 20.0 && Run(p).ispLatency < 20.0 && Run(p).dnsLatency < 20.0
    ensures Run(p).health == Excellent
  {
  }
}
