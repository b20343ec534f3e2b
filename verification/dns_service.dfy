/** The DNS service of the desktop application's back end: the provider table, changing the
    servers of an adapter, and choosing the provider whose primary server answers fastest.

    Every PowerShell script is a `Command`; what running it prints, or the error it fails
    with, is the `run` parameter. */
module DnsService {
  import opened Wrappers
  import Text
  import Seqs

  datatype Provider = Provider(id: string, name: string, primary: string, secondary: string, tier: nat)

  const Providers: seq<Provider> := [
    Provider("cloudflare", "Cloudflare", "1.1.1.1", "1.0.0.1", 1),
    Provider("google", "Google", "8.8.8.8", "8.8.4.4", 2),
    Provider("quad9", "Quad9", "9.9.9.9", "149.112.112.112", 3),
    Provider("opendns", "OpenDNS", "208.67.222.222", "208.67.220.220", 4),
    Provider("adguard", "AdGuard", "94.140.14.14", "94.140.15.15", 5),
    Provider("cleanbrowsing", "CleanBrowsing", "185.228.168.9", "185.228.169.9", 6)]

  /** The largest finite `f64`, the starting point of the latency comparison. */
  const F64Max: real := 179769313486231570000000000000000000000000000000000000000000000000000000000000000000000000000000000000000000000000000000000000000000000000000000000000000000000000000000000000000000000000000000000000000000000000000000000000000000000000000000000000000000000000000000000000000000000000000000000000000000000000000.0

  /** The scripts the service runs. */
  datatype Command =
    | PrimaryAdapter
    | SetServers(adapter: string, servers: string)
    | ResetServers(adapter: string)
    | ClearCache
    | Ping(server: string)
    | Resolve(domain: string, server: string)

  /** `get_provider`: the first provider with the id. */
  function GetProvider(id: string): (r: Option<Provider>)
    ensures r.Some? <==> exists k :: 0 <= k < |Providers| && Providers[k].id == id
    ensures r.Some? ==> r.value in Providers && r.value.id == id
  {
    match Seqs.FirstIndex(Providers, (p: Provider) => p.id == id)
    case Some(k) => Some(Providers[k])
    case None => None
  }

  /** Every provider is found by its own id. */
  lemma GetProviderFindsEach(k: nat)
    requires k < |Providers|
    ensures GetProvider(Providers[k].id) == Some(Providers[k])
  {
    assert forall a, b :: 0 <= a < b < |Providers| ==> Providers[a].id != Providers[b].id;
  }

  /** The server list of `set_dns`: "primary,secondary", or the primary alone. */
  function ServerList(primary: string, secondary: Option<string>): string {
    match secondary
    case Some(sec) => primary + "," + sec
    case None => primary
  }

  predicate NoComma(s: string) {
    forall k :: 0 <= k < |s| ==> s[k] != ','
  }

  /** The list splits back into the servers it was made from. */
  lemma ServerListSplits(primary: string, secondary: Option<string>)
    requires NoComma(primary) && (secondary.Some? ==> NoComma(secondary.value))
    ensures secondary.None? ==> Text.Split(ServerList(primary, secondary), ',') == [primary]
    ensures secondary.Some? ==> Text.Split(ServerList(primary, secondary), ',') == [primary, secondary.value]
  {
    match secondary
    case None => Text.SplitWithout(primary, ',');
    case Some(sec) =>
      assert Text.Join([primary, sec], [',']) == ServerList(primary, secondary);
      Text.JoinSplit([primary, sec], ',');
  }

  /** A script that printed nothing, or nothing containing "error", succeeded. */
  predicate Succeeded(output: string) {
    output == [] || !Text.Contains(output, "error")
  }

  /** The empty-output test is subsumed: success is exactly the absence of "error". */
  lemma SucceededIffNoError(output: string)
    ensures Succeeded(output) <==> !Text.Contains(output, "error")
  {
  }

  /** A script's outcome: the run's error, or whether its output reports success. */
  function Outcome(res: Result<string>): (r: Result<bool>)
    ensures r.Err? <==> res.Err?
    ensures r.Ok? ==> (r.value <==> !Text.Contains(res.value, "error"))
  {
    match res
    case Err(e) => Err(e)
    case Ok(out) =>
      SucceededIffNoError(out);
      Ok(Succeeded(out))
  }

  /** `set_dns`: one script with the server list. */
  function SetDns(run: Command -> Result<string>, adapter: string, primary: string, secondary: Option<string>)
    : (r: Result<bool>)
    ensures var o := run(SetServers(adapter, ServerList(primary, secondary)));
            (r.Err? <==> o.Err?) && (r.Ok? ==> (r.value <==> !Text.Contains(o.value, "error")))
  {
    Outcome(run(SetServers(adapter, ServerList(primary, secondary))))
  }

  /** `set_dns_by_provider`: an unknown provider or a failure to find the adapter is an
      error; otherwise both of the provider's servers are set on the adapter. */
  function SetDnsByProvider(run: Command -> Result<string>, id: string): (r: Result<bool>)
    ensures GetProvider(id).None? ==> r.Err?
    ensures run(PrimaryAdapter).Err? ==> r.Err?
    ensures GetProvider(id).Some? && run(PrimaryAdapter).Ok? ==>
      (var p := GetProvider(id).value;
       var o := run(SetServers(run(PrimaryAdapter).value, p.primary + "," + p.secondary));
       (r.Err? <==> o.Err?) && (r.Ok? ==> (r.value <==> !Text.Contains(o.value, "error"))))
  {
    match GetProvider(id)
    case None => Err("Proveedor DNS '" + id + "' no encontrado")
    case Some(p) =>
      match run(PrimaryAdapter)
      case Err(e) => Err(e)
      case Ok(adapter) => SetDns(run, adapter, p.primary, Some(p.secondary))
  }

  /** `reset_dns_to_dhcp` and `flush_dns_cache`: one script each, judged like `set_dns`. */
  function ResetToDhcp(run: Command -> Result<string>, adapter: string): (r: Result<bool>)
    ensures var o := run(ResetServers(adapter));
            (r.Err? <==> o.Err?) && (r.Ok? ==> (r.value <==> !Text.Contains(o.value, "error")))
  {
    Outcome(run(ResetServers(adapter)))
  }

  function FlushCache(run: Command -> Result<string>): (r: Result<bool>)
    ensures var o := run(ClearCache);
            (r.Err? <==> o.Err?) && (r.Ok? ==> (r.value <==> !Text.Contains(o.value, "error")))
  {
    Outcome(run(ClearCache))
  }

  /** `ping_dns`: the script prints the reply time, or -1 when no reply came; the trimmed
      output is read as a number. */
  function PingDns(run: Command -> Result<string>, server: string): (r: Result<real>)
    ensures run(Ping(server)).Err? ==> r.Err?
    ensures run(Ping(server)).Ok? ==>
      (r.Ok? <==> Text.ParseDecimal(Text.Trim(run(Ping(server)).value)).Some?)
    ensures r.Ok? ==> Text.ParseDecimal(Text.Trim(run(Ping(server)).value)) == Some(r.value)
  {
    match run(Ping(server))
    case Err(e) => Err(e)
    case Ok(out) =>
      match Text.ParseDecimal(Text.Trim(out))
      case Some(v) => Ok(v)
      case None => Err("Error parsing latency")
  }

  /** The script's no-reply answer reads as -1. */
  lemma NoReplyIsMinusOne(run: Command -> Result<string>, server: string)
    requires run(Ping(server)) == Ok("-1")
    ensures PingDns(run, server) == Ok(-1.0)
  {
    Text.ParseDecimalWhole(1);
    assert Text.NatToString(1) == "1";
    Text.TrimNoSpaces("-1");
  }

  /** A latency that can beat the starting value: positive and below the largest `f64`. */
  predicate Usable(l: Result<real>) {
    l.Ok? && 0.0 < l.value < F64Max
  }

  /** The loop of `select_best_dns` over the latencies in table order: the index of the
      best so far and its latency. A later latency replaces the best only when strictly
      lower, so the earliest of equal latencies stays. */
  function Best(lats: seq<Result<real>>): (r: (Option<nat>, real))
    ensures r.1 <= F64Max
    ensures r.0.None? <==> forall k :: 0 <= k < |lats| ==> !Usable(lats[k])
    ensures r.0.None? ==> r.1 == F64Max
    ensures r.0.Some? ==> r.0.value < |lats| && Usable(lats[r.0.value]) && lats[r.0.value].value == r.1
    ensures forall k :: 0 <= k < |lats| && Usable(lats[k]) ==> r.1 <= lats[k].value
    ensures r.0.Some? ==> forall k :: 0 <= k < r.0.value && Usable(lats[k]) ==> r.1 < lats[k].value
  {
    if |lats| == 0 then (None, F64Max)
    else
      var prev := Best(lats[..|lats| - 1]);
      var l := lats[|lats| - 1];
      assert forall k :: 0 <= k < |lats| - 1 ==> lats[..|lats| - 1][k] == lats[k];
      if l.Ok? && l.value < prev.1 && l.value > 0.0 then (Some(|lats| - 1), l.value) else prev
  }

  /** The latency of every provider's primary server, in table order. */
  function Latencies(run: Command -> Result<string>): (r: seq<Result<real>>)
    ensures |r| == |Providers|
    ensures forall k :: 0 <= k < |r| ==> r[k] == PingDns(run, Providers[k].primary)
  {
    seq(|Providers|, k requires 0 <= k < |Providers| => PingDns(run, Providers[k].primary))
  }

  /** The provider of the best latency in a table, or the error of `select_best_dns`. */
  function Choose(table: seq<Provider>, lats: seq<Result<real>>): (r: Result<Provider>)
    requires |lats| == |table|
    ensures r.Err? <==> forall k :: 0 <= k < |lats| ==> !Usable(lats[k])
    ensures r.Ok? ==> exists k :: (0 <= k < |lats| && r.value == table[k] && Usable(lats[k])
      && (forall j :: 0 <= j < |lats| && Usable(lats[j]) ==> lats[k].value <= lats[j].value)
      && (forall j :: 0 <= j < k && Usable(lats[j]) ==> lats[k].value < lats[j].value))
  {
    match Best(lats).0
    case None => Err("No se pudo determinar el mejor DNS")
    case Some(k) => Ok(table[k])
  }

  /** `select_best_dns`: the provider with the lowest positive latency, the earliest in the
      table on ties; an error when no provider answered with a positive latency. */
  function SelectBestDns(run: Command -> Result<string>): (r: Result<Provider>)
    ensures var lats := Latencies(run);
      r.Err? <==> forall k :: 0 <= k < |lats| ==> !Usable(lats[k])
    ensures var lats := Latencies(run);
      r.Ok? ==> exists k :: (0 <= k < |lats| && r.value == Providers[k] && Usable(lats[k])
        && (forall j :: 0 <= j < |lats| && Usable(lats[j]) ==> lats[k].value <= lats[j].value)
        && (forall j :: 0 <= j < k && Usable(lats[j]) ==> lats[k].value < lats[j].value))
  {
    Choose(Providers, Latencies(run))
  }

  /** A provider whose server did not reply is never chosen. */
  lemma SilentProviderNeverChosen(run: Command -> Result<string>, k: nat)
    requires k < |Providers| && run(Ping(Providers[k].primary)) == Ok("-1")
    ensures SelectBestDns(run).Ok? ==> SelectBestDns(run).value != Providers[k]
  {
    NoReplyIsMinusOne(run, Providers[k].primary);
    assert forall a, b :: 0 <= a < b < |Providers| ==> Providers[a] != Providers[b];
  }

  /** `check_dns_resolution`: the script prints OK when the name resolved. */
  function CheckResolution(run: Command -> Result<string>, server: string, domain: string): (r: Result<bool>)
    ensures r.Err? <==> run(Resolve(domain, server)).Err?
    ensures r.Ok? ==> (r.value <==> Text.Trim(run(Resolve(domain, server)).value) == "OK")
  {
    match run(Resolve(domain, server))
    case Err(e) => Err(e)
    case Ok(out) => Ok(Text.Trim(out) == "OK")
  }
}
