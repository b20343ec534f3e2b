/** The network commands of the desktop application: listing the adapters, reading and
    changing an adapter's DNS servers (retrying elevated when the first attempt lacks
    permission), flushing the cache and applying the best server the DNS intelligence
    service has ranked.

    Every PowerShell invocation is a `Script`; `run` gives what it did: an error when the
    process could not be started, otherwise its exit status and output. The JSON decoding of
    the output is an input as well. */
module NetworkCmd {
  import opened Wrappers
  import Text
  import DnsService
  import DnsIntelRs
  import Seqs

  datatype Output = Output(success: bool, stdout: string, stderr: string)

  datatype Script =
    | ListAdapters
    | QueryDns(adapter: string)
    | SetServers(adapter: string, servers: string)
    | SetServersElevated(adapter: string, servers: string)
    | ResetServers(adapter: string)
    | ResetServersElevated(adapter: string)
    | ClearCache

  datatype Adapter = Adapter(name: string, description: string, status: string, linkSpeed: string, macAddress: string)

  /** What the JSON decoder makes of the adapter listing read as an array and as one object. */
  datatype AdapterJson = AdapterJson(asArray: Result<seq<Adapter>>, asObject: Result<Adapter>)

  /** `get_network_adapters`: a failed run is an error; output starting with `[` is a list
      and with an opening brace a single adapter, once surrounding whitespace is ignored; anything else
      means no adapters. */
  function NetworkAdapters(run: Script -> Result<Output>, json: AdapterJson): (r: Result<seq<Adapter>>)
    ensures run(ListAdapters).Err? || !run(ListAdapters).value.success ==> r.Err?
    ensures run(ListAdapters).Ok? && run(ListAdapters).value.success ==>
      (var t := Text.Trim(run(ListAdapters).value.stdout);
       (t != [] && t[0] == '[' ==> r == json.asArray)
       && (t != [] && t[0] == Text.OpenBrace ==> (r.Ok? <==> json.asObject.Ok?) && (r.Ok? ==> r.value == [json.asObject.value]))
       && (t == [] || (t[0] != '[' && t[0] != Text.OpenBrace) ==> r == Ok([])))
  {
    match run(ListAdapters)
    case Err(e) => Err(e)
    case Ok(out) =>
      if !out.success then Err("Failed to get network adapters")
      else
        var t := Text.Trim(out.stdout);
        if t != [] && t[0] == '[' then json.asArray
        else if t != [] && t[0] == Text.OpenBrace then
          match json.asObject
          case Err(e) => Err(e)
          case Ok(a) => Ok([a])
        else Ok([])
  }

  datatype DnsConfig = DnsConfig(adapter: string, servers: seq<string>, isDhcp: bool)

  /** What the JSON decoder makes of the DNS query's output: the interface alias and the
      server addresses, each possibly absent. */
  datatype DnsJson = DnsJson(alias: Option<string>, servers: Option<seq<string>>)

  function Dhcp(adapter: string): DnsConfig {
    DnsConfig(adapter, [], true)
  }

  /** `get_current_dns`: output that is empty, is the cmdlet's own error text, or does not
      decode means automatic (DHCP) configuration; otherwise the decoded servers, with the
      requested adapter name when the alias is absent. */
  function CurrentDns(run: Script -> Result<Output>, adapter: string, decoded: Result<DnsJson>): (r: Result<DnsConfig>)
    ensures r.Err? <==> run(QueryDns(adapter)).Err?
    ensures r.Ok? ==> (r.value.isDhcp <==> r.value.servers == [])
    ensures r.Ok? && decoded.Err? ==> r.value == Dhcp(adapter)
    ensures r.Ok? && decoded.Ok? && decoded.value.alias.None? ==> r.value.adapter == adapter
    ensures r.Ok? ==>
      (var t := Text.Trim(run(QueryDns(adapter)).value.stdout);
       (t == [] || Text.At(t, 0, "Get-DnsClientServerAddress")) ==> r.value == Dhcp(adapter))
  {
    match run(QueryDns(adapter))
    case Err(e) => Err(e)
    case Ok(out) =>
      var t := Text.Trim(out.stdout);
      if t == [] || Text.At(t, 0, "Get-DnsClientServerAddress") then Ok(Dhcp(adapter))
      else
        match decoded
        case Err(_) => Ok(Dhcp(adapter))
        case Ok(d) =>
          var servers := d.servers.GetOr([]);
          Ok(DnsConfig(d.alias.GetOr(adapter), servers, servers == []))
  }

  /** A configuration with servers, and every decoded field, comes back unchanged. */
  lemma CurrentDnsKeepsDecoded(run: Script -> Result<Output>, adapter: string, d: DnsJson)
    requires run(QueryDns(adapter)).Ok?
    requires var t := Text.Trim(run(QueryDns(adapter)).value.stdout);
      t != [] && !Text.At(t, 0, "Get-DnsClientServerAddress")
    requires d.alias.Some? && d.servers.Some? && d.servers.value != []
    ensures CurrentDns(run, adapter, Ok(d)) == Ok(DnsConfig(d.alias.value, d.servers.value, false))
  {
  }

  /** The server list of `set_dns_servers`, each address in single quotes. */
  function QuotedList(primary: string, secondary: Option<string>): string {
    match secondary
    case Some(sec) => "'" + primary + "','" + sec + "'"
    case None => "'" + primary + "'"
  }

  /** The quoted list splits at its comma into the two quoted addresses. */
  lemma QuotedListSplits(primary: string, secondary: string)
    requires DnsService.NoComma(primary) && DnsService.NoComma(secondary)
    ensures Text.Split(QuotedList(primary, Some(secondary)), ',') == ["'" + primary + "'", "'" + secondary + "'"]
  {
    DnsService.ServerListSplits("'" + primary + "'", Some("'" + secondary + "'"));
    assert DnsService.ServerList("'" + primary + "'", Some("'" + secondary + "'")) == QuotedList(primary, Some(secondary));
  }

  /** PowerShell's escape for a single-quoted string: each quote doubled. */
  function Escape(s: string): string {
    Text.Replace(s, "'", "''")
  }

  function Unescape(s: string): (r: string)
    decreases |s|
  {
    if |s| >= 2 && s[0] == '\'' && s[1] == '\'' then "'" + Unescape(s[2..])
    else if |s| == 0 then []
    else [s[0]] + Unescape(s[1..])
  }

  /** Escaping loses nothing: the adapter name can be read back from the elevated script. */
  lemma {:induction false} EscapeRoundTrip(s: string)
    ensures Unescape(Escape(s)) == s
    decreases |s|
  {
    if |s| > 0 {
      EscapeRoundTrip(s[1..]);
      if s[0] == '\'' {
        assert Text.At(s, 0, "'");
        assert Escape(s) == "''" + Escape(s[1..]);
      } else {
        assert !Text.At(s, 0, "'");
        assert Escape(s) == [s[0]] + Escape(s[1..]);
      }
    }
  }

  /** A failure the elevated retry is meant for. */
  predicate NeedsElevation(stderr: string) {
    Text.Contains(stderr, "PermissionDenied") || Text.Contains(stderr, "Access") || Text.Contains(stderr, "CIM")
  }

  /** The shared shape of `set_dns_servers` and `reset_dns_to_dhcp`: success on the first
      run; on a permission failure one elevated retry, whose failure asks for administrator
      rights; any other failure is an error. Success is always `true`. */
  function WithElevation(run: Script -> Result<Output>, first: Script, elevated: Script, denied: string): (r: Result<bool>)
    ensures r.Ok? ==> r.value
    ensures r.Ok? <==>
      (run(first).Ok? && (run(first).value.success
        || (NeedsElevation(run(first).value.stderr) && run(elevated).Ok? && run(elevated).value.success)))
    ensures (run(first).Ok? && !run(first).value.success && NeedsElevation(run(first).value.stderr)
             && run(elevated).Ok? && !run(elevated).value.success) ==> r == Err(denied)
  {
    match run(first)
    case Err(e) => Err(e)
    case Ok(out) =>
      if out.success then Ok(true)
      else if NeedsElevation(out.stderr) then
        match run(elevated)
        case Err(e) => Err(e)
        case Ok(out2) => if out2.success then Ok(true) else Err(denied)
      else Err(out.stderr)
  }

  /** `set_dns_servers`. */
  function SetDnsServers(run: Script -> Result<Output>, adapter: string, primary: string, secondary: Option<string>)
    : (r: Result<bool>)
    ensures r.Ok? ==> r.value
    ensures var o := run(SetServers(adapter, QuotedList(primary, secondary)));
      (o.Ok? && o.value.success ==> r == Ok(true))
      && (o.Ok? && !o.value.success && !NeedsElevation(o.value.stderr) ==> r.Err?)
    ensures var o := run(SetServers(adapter, QuotedList(primary, secondary)));
            var e := run(SetServersElevated(Escape(adapter), QuotedList(primary, secondary)));
      o.Ok? && !o.value.success && NeedsElevation(o.value.stderr) ==> (r.Ok? <==> e.Ok? && e.value.success)
  {
    var list := QuotedList(primary, secondary);
    WithElevation(run, SetServers(adapter, list), SetServersElevated(Escape(adapter), list),
                  "Se requieren permisos de administrador. Ejecuta NetBoozt como administrador o acepta el prompt de UAC.")
  }

  /** `reset_dns_to_dhcp`. */
  function ResetDnsToDhcp(run: Script -> Result<Output>, adapter: string): (r: Result<bool>)
    ensures r.Ok? ==> r.value
    ensures var o := run(ResetServers(adapter));
      (o.Ok? && o.value.success ==> r == Ok(true))
      && (o.Ok? && !o.value.success && !NeedsElevation(o.value.stderr) ==> r.Err?)
    ensures var o := run(ResetServers(adapter));
            var e := run(ResetServersElevated(Escape(adapter)));
      o.Ok? && !o.value.success && NeedsElevation(o.value.stderr) ==> (r.Ok? <==> e.Ok? && e.value.success)
  {
    WithElevation(run, ResetServers(adapter), ResetServersElevated(Escape(adapter)),
                  "Se requieren permisos de administrador para resetear DNS.")
  }

  /** `flush_dns_cache`: the exit status. */
  function FlushDnsCache(run: Script -> Result<Output>): (r: Result<bool>)
    ensures r.Err? <==> run(ClearCache).Err?
    ensures r.Ok? ==> r.value == run(ClearCache).value.success
  {
    match run(ClearCache)
    case Err(e) => Err(e)
    case Ok(out) => Ok(out.success)
  }

  /** A server of the same provider as `best`: the name contains `best`'s name without its
      " Secondary" suffix, and the address differs. */
  predicate SameProvider(m: DnsIntelRs.Metrics, best: DnsIntelRs.Metrics) {
    Text.Contains(m.name, Text.Replace(best.name, " Secondary", "")) && m.address != best.address
  }

  /** The secondary server of `apply_best_dns`: the second of the best list when there is
      one, else the first same-provider server of the full ranking. */
  function Secondary(best: seq<DnsIntelRs.Metrics>, all: seq<DnsIntelRs.Metrics>): (r: Option<string>)
    requires |best| >= 1
    ensures |best| > 1 ==> r == Some(best[1].address)
    ensures |best| == 1 ==> (r.Some? <==> exists k :: 0 <= k < |all| && SameProvider(all[k], best[0]))
    ensures |best| == 1 && r.Some? ==> exists k :: 0 <= k < |all| && SameProvider(all[k], best[0]) && r.value == all[k].address
  {
    if |best| > 1 then Some(best[1].address)
    else
      match Seqs.FirstIndex(all, (m: DnsIntelRs.Metrics) => SameProvider(m, best[0]))
      case Some(k) => Some(all[k].address)
      case None => None
  }

  /** `apply_best_dns`: an error when nothing is monitored; otherwise the top-ranked server
      and its secondary are set on the adapter, and the exit status is the answer. */
  function ApplyBestDns(run: Script -> Result<Output>, adapter: string, metrics: seq<DnsIntelRs.Metrics>)
    : (r: Result<bool>)
    ensures metrics == [] ==> r.Err?
    ensures metrics != [] ==>
      (var best := DnsIntelRs.BestDns(metrics, 1);
       var script := SetServers(adapter, DnsService.ServerList(best[0].address, Secondary(best, DnsIntelRs.AllMetrics(metrics))));
       (r.Err? <==> run(script).Err?) && (r.Ok? ==> r.value == run(script).value.success))
  {
    var best := DnsIntelRs.BestDns(metrics, 1);
    if best == [] then Err("No hay DNS saludables disponibles")
    else
      var secondary := Secondary(best, DnsIntelRs.AllMetrics(metrics));
      match run(SetServers(adapter, DnsService.ServerList(best[0].address, secondary)))
      case Err(e) => Err(e)
      case Ok(out) => Ok(out.success)
  }

  /** Asking for one best server means the secondary always comes from the name match: the
      branch that takes the second best never runs. */
  lemma ApplyBestUsesSameProvider(metrics: seq<DnsIntelRs.Metrics>)
    requires metrics != []
    ensures var best := DnsIntelRs.BestDns(metrics, 1);
      |best| == 1 && best[0] == DnsIntelRs.AllMetrics(metrics)[0]
      && (Secondary(best, DnsIntelRs.AllMetrics(metrics)).Some? <==>
          exists k :: 0 <= k < |metrics| && SameProvider(DnsIntelRs.AllMetrics(metrics)[k], best[0]))
  {
  }
}
