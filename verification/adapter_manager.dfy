/** Network adapters of the Windows client and the seven-tier DNS fallback ladder.

    The adapter list is whatever the last PowerShell detection produced; it is an input here.
    A command sent to PowerShell is modelled as an `Action` value, and its effect on the
    adapter list as the function `Perform`. */
module AdapterManager {
  import opened Wrappers
  import Text
  import Ranking

  datatype AdapterStatus = Up | Down | Disconnected | Disabled

  datatype Adapter = Adapter(name: string, status: AdapterStatus, metric: int,
                             speedMbps: int, dnsServers: seq<string>)

  /** A well-known public resolver: the title `dns_provider` reports and its two addresses. */
  datatype Provider = Provider(title: string, primary: string, secondary: string)

  const Providers: seq<Provider> := [
    Provider("Cloudflare", "1.1.1.1", "1.0.0.1"),
    Provider("Cloudflare Family", "1.1.1.3", "1.0.0.3"),
    Provider("Google", "8.8.8.8", "8.8.4.4"),
    Provider("Quad9", "9.9.9.9", "149.112.112.112"),
    Provider("Opendns", "208.67.222.222", "208.67.220.220"),
    Provider("Opendns Family", "208.67.222.123", "208.67.220.123"),
    Provider("Adguard", "94.140.14.14", "94.140.15.15"),
    Provider("Adguard Family", "94.140.14.15", "94.140.15.16"),
    Provider("Cleanbrowsing", "185.228.168.9", "185.228.169.9"),
    Provider("Cleanbrowsing Family", "185.228.168.168", "185.228.169.168"),
    Provider("Level3", "209.244.0.3", "209.244.0.4"),
    Provider("Verisign", "64.6.64.6", "64.6.65.6")
  ]

  datatype Tier = Tier(number: int, provider: string, primary: string, secondary: string)

  const DhcpTier: int := 7
  const CustomTier: int := 0

  /** The fallback ladder, best first; the last rung hands DNS back to the router. */
  const Ladder: seq<Tier> := [
    Tier(1, "Cloudflare", "1.1.1.1", "1.0.0.1"),
    Tier(2, "Google", "8.8.8.8", "8.8.4.4"),
    Tier(3, "Quad9", "9.9.9.9", "149.112.112.112"),
    Tier(4, "OpenDNS", "208.67.222.222", "208.67.220.220"),
    Tier(5, "AdGuard", "94.140.14.14", "94.140.15.15"),
    Tier(6, "CleanBrowsing", "185.228.168.9", "185.228.169.9"),
    Tier(7, "Router DHCP", "Auto", "Auto")
  ]

  /** Rung k of the ladder carries the number k + 1. */
  lemma LadderNumbered()
    ensures |Ladder| == 7
    ensures forall k :: 0 <= k < |Ladder| ==> Ladder[k].number == k + 1
    ensures forall j, k :: 0 <= j < k < 6 ==> Ladder[j].primary != Ladder[k].primary
  {
  }

  predicate IsActive(a: Adapter) {
    a.status == Up
  }

  /** Index of the first provider that lists `dns` as either of its addresses. */
  function ProviderIndex(ps: seq<Provider>, dns: string): (r: Option<nat>)
    ensures r.Some? ==> r.value < |ps| && (ps[r.value].primary == dns || ps[r.value].secondary == dns)
    ensures r.Some? ==> forall k :: 0 <= k < r.value ==> ps[k].primary != dns && ps[k].secondary != dns
    ensures r.None? ==> forall k :: 0 <= k < |ps| ==> ps[k].primary != dns && ps[k].secondary != dns
  {
    if |ps| == 0 then None
    else if ps[0].primary == dns || ps[0].secondary == dns then Some(0)
    else match ProviderIndex(ps[1..], dns)
      case Some(k) => Some(k + 1)
      case None => None
  }

  /** No well-known resolver carries the title given to an unknown one. */
  lemma NoProviderCalledCustom()
    ensures forall k :: 0 <= k < |Providers| ==> Providers[k].title != "Custom"
  {
  }

  /** `dns_provider`: who answers the adapter's first DNS server. */
  function DnsProvider(a: Adapter): (r: string)
    ensures |a.dnsServers| == 0 ==> r == "DHCP/Router"
    ensures |a.dnsServers| > 0 ==>
              (r == "Custom" <==>
               forall k :: 0 <= k < |Providers| ==>
                 Providers[k].primary != a.dnsServers[0] && Providers[k].secondary != a.dnsServers[0])
    ensures |a.dnsServers| > 0 && r != "Custom" ==>
              exists k :: 0 <= k < |Providers| && r == Providers[k].title &&
                (Providers[k].primary == a.dnsServers[0] || Providers[k].secondary == a.dnsServers[0])
  {
    NoProviderCalledCustom();
    if |a.dnsServers| == 0 then "DHCP/Router"
    else match ProviderIndex(Providers, a.dnsServers[0])
      case Some(k) => Providers[k].title
      case None => "Custom"
  }

  /** Index of the first active adapter with the lowest metric (`min` keeps the first). */
  function PriorityIndex(ads: seq<Adapter>): (r: Option<nat>)
    ensures r.None? <==> forall k :: 0 <= k < |ads| ==> !IsActive(ads[k])
    ensures r.Some? ==> r.value < |ads| && IsActive(ads[r.value])
    ensures r.Some? ==> forall k :: 0 <= k < |ads| && IsActive(ads[k]) ==> ads[r.value].metric <= ads[k].metric
    ensures r.Some? ==> forall k :: 0 <= k < r.value && IsActive(ads[k]) ==> ads[r.value].metric < ads[k].metric
  {
    if |ads| == 0 then None
    else
      var rest := PriorityIndex(ads[1..]);
      if !IsActive(ads[0]) then (if rest.Some? then Some(rest.value + 1) else None)
      else if rest.Some? && ads[rest.value + 1].metric < ads[0].metric then Some(rest.value + 1)
      else Some(0)
  }

  /** `get_priority_adapter`. */
  function PriorityAdapter(ads: seq<Adapter>): (r: Option<Adapter>)
    ensures r.None? <==> forall k :: 0 <= k < |ads| ==> !IsActive(ads[k])
    ensures r.Some? ==> r.value in ads && IsActive(r.value)
    ensures r.Some? ==> forall k :: 0 <= k < |ads| && IsActive(ads[k]) ==> r.value.metric <= ads[k].metric
  {
    match PriorityIndex(ads)
    case Some(k) => Some(ads[k])
    case None => None
  }

  /** `get_adapters_sorted_by_priority`: every adapter, lowest metric first. */
  function SortedByPriority(ads: seq<Adapter>): (r: seq<Adapter>)
    ensures |r| == |ads| && multiset(r) == multiset(ads)
    ensures forall i, j :: 0 <= i < j < |r| ==> r[i].metric <= r[j].metric
  {
    Ranking.SortAscendingBy(ads, (a: Adapter) => a.metric as real)
  }

  /** `get_adapter_by_name`: the first adapter whose name equals `name` ignoring letter case. */
  function ByName(ads: seq<Adapter>, name: string): (r: Option<Adapter>)
    ensures r.None? <==> forall k :: 0 <= k < |ads| ==> Text.LowerStr(ads[k].name) != Text.LowerStr(name)
    ensures r.Some? ==> exists k :: 0 <= k < |ads| && ads[k] == r.value &&
                          Text.LowerStr(ads[k].name) == Text.LowerStr(name) &&
                          forall j :: 0 <= j < k ==> Text.LowerStr(ads[j].name) != Text.LowerStr(name)
  {
    if |ads| == 0 then None
    else if Text.LowerStr(ads[0].name) == Text.LowerStr(name) then Some(ads[0])
    else
      var r := ByName(ads[1..], name);
      if r.Some? then
        var k :| 0 <= k < |ads[1..]| && ads[1..][k] == r.value &&
                 Text.LowerStr(ads[1..][k].name) == Text.LowerStr(name) &&
                 forall j :: 0 <= j < k ==> Text.LowerStr(ads[1..][j].name) != Text.LowerStr(name);
        assert ads[k + 1] == r.value;
        r
      else r
  }

  /** Position of the rung among the first six whose primary is `dns`. */
  function RungOf(dns: string): (r: Option<nat>)
    ensures r.Some? ==> r.value < 6 && Ladder[r.value].primary == dns
    ensures r.None? ==> forall k :: 0 <= k < 6 ==> Ladder[k].primary != dns
  {
    if dns == "1.1.1.1" then Some(0)
    else if dns == "8.8.8.8" then Some(1)
    else if dns == "9.9.9.9" then Some(2)
    else if dns == "208.67.222.222" then Some(3)
    else if dns == "94.140.14.14" then Some(4)
    else if dns == "185.228.168.9" then Some(5)
    else None
  }

  /** `detect_active_dns_tier`: read the tier off the priority adapter's primary DNS server. */
  function DetectTier(ads: seq<Adapter>): (r: Tier)
    ensures PriorityAdapter(ads).None? || |PriorityAdapter(ads).value.dnsServers| == 0 ==>
              r == Ladder[6]
    ensures PriorityAdapter(ads).Some? && |PriorityAdapter(ads).value.dnsServers| > 0 ==>
              var dns := PriorityAdapter(ads).value.dnsServers;
              if exists k :: 0 <= k < 6 && Ladder[k].primary == dns[0]
              then r.number != CustomTier && r in Ladder[..6] && r.primary == dns[0]
              else r == Tier(CustomTier, "Custom", dns[0], if |dns| > 1 then dns[1] else "")
  {
    match PriorityAdapter(ads)
    case None => Ladder[6]
    case Some(a) =>
      if |a.dnsServers| == 0 then Ladder[6]
      else match RungOf(a.dnsServers[0])
        case Some(k) => Ladder[k]
        case None =>
          Tier(CustomTier, "Custom", a.dnsServers[0],
               if |a.dnsServers| > 1 then a.dnsServers[1] else "")
  }

  /** `get_dns_fallback_status`: the ladder with the active rung flagged. */
  function FallbackStatus(ads: seq<Adapter>): (r: seq<(Tier, bool)>)
    ensures |r| == |Ladder|
    ensures forall k :: 0 <= k < |r| ==> r[k].0 == Ladder[k]
    ensures forall k :: 0 <= k < |r| ==> (r[k].1 <==> Ladder[k].number == DetectTier(ads).number)
  {
    var active := DetectTier(ads);
    seq(|Ladder|, k requires 0 <= k < |Ladder| => (Ladder[k], Ladder[k].number == active.number))
  }

  /** A custom resolver flags no rung; any other detection flags exactly one. */
  lemma FallbackStatusFlagsOne(ads: seq<Adapter>)
    ensures DetectTier(ads).number == CustomTier ==>
              forall k :: 0 <= k < 7 ==> !FallbackStatus(ads)[k].1
    ensures DetectTier(ads).number != CustomTier ==>
              exists k :: 0 <= k < 7 && FallbackStatus(ads)[k].1 &&
                forall j :: 0 <= j < 7 && j != k ==> !FallbackStatus(ads)[j].1
  {
    LadderNumbered();
    var t := DetectTier(ads);
    if t.number != CustomTier {
      assert t in Ladder;
      var k :| 0 <= k < 7 && Ladder[k] == t;
      assert FallbackStatus(ads)[k].1;
    }
  }

  /** The PowerShell command `apply_dns_tier` issues. */
  datatype Action = ResetToDhcp(adapter: string) | SetServers(adapter: string, servers: seq<string>)

  /** `apply_dns_tier`: the command it issues, if any, and the value it returns. PowerShell errors
      are swallowed by the command runner, so an issued command always reports success. */
  function ApplyTier(ads: seq<Adapter>, number: int): (r: (bool, Option<Action>))
    ensures r.0 <==> 1 <= number <= |Ladder| && PriorityAdapter(ads).Some?
    ensures r.0 <==> r.1.Some?
    ensures r.0 && number == DhcpTier ==> r.1 == Some(ResetToDhcp(PriorityAdapter(ads).value.name))
    ensures r.0 && number != DhcpTier ==>
              r.1 == Some(SetServers(PriorityAdapter(ads).value.name,
                                     [Ladder[number - 1].primary, Ladder[number - 1].secondary]))
  {
    if number < 1 || number > |Ladder| then (false, None)
    else match PriorityAdapter(ads)
      case None => (false, None)
      case Some(a) =>
        var tier := Ladder[number - 1];
        if tier.number == DhcpTier then (true, Some(ResetToDhcp(a.name)))
        else (true, Some(SetServers(a.name, [tier.primary, tier.secondary])))
  }

  /** Effect of a command on the adapters: the named adapter's DNS list is replaced. */
  function Perform(ads: seq<Adapter>, act: Action): (r: seq<Adapter>)
    ensures |r| == |ads|
    ensures forall k :: 0 <= k < |ads| ==>
              r[k].name == ads[k].name && r[k].status == ads[k].status && r[k].metric == ads[k].metric
  {
    seq(|ads|, k requires 0 <= k < |ads| =>
      if ads[k].name != act.adapter then ads[k]
      else ads[k].(dnsServers := match act
                                 case ResetToDhcp(_) => []
                                 case SetServers(_, s) => s))
  }

  /** The priority adapter depends only on the adapters' status and metric. */
  lemma {:induction false} PriorityIgnoresDns(a: seq<Adapter>, b: seq<Adapter>)
    requires |a| == |b|
    requires forall k :: 0 <= k < |a| ==> a[k].status == b[k].status && a[k].metric == b[k].metric
    ensures PriorityIndex(a) == PriorityIndex(b)
  {
    if |a| > 0 {
      PriorityIgnoresDns(a[1..], b[1..]);
    }
  }

  /** Applying rung n and detecting again reports rung n: the ladder round-trips. */
  lemma ApplyThenDetect(ads: seq<Adapter>, number: int)
    requires ApplyTier(ads, number).0
    ensures DetectTier(Perform(ads, ApplyTier(ads, number).1.value)) == Ladder[number - 1]
  {
    var act := ApplyTier(ads, number).1.value;
    var r := Perform(ads, act);
    PriorityIgnoresDns(ads, r);
    var k := PriorityIndex(ads).value;
    assert r[k].name == act.adapter;
    assert PriorityAdapter(r) == Some(r[k]);
    if number == DhcpTier {
      assert r[k].dnsServers == [];
    } else {
      assert r[k].dnsServers == [Ladder[number - 1].primary, Ladder[number - 1].secondary];
      DetectRung(r, number - 1);
    }
  }

  /** `_detect_adapters` appends to the manager's list without clearing it. When a second
      detection finds the same adapters with the same status and metrics, `min` still picks
      the entry of the first detection, so the tier is read off the stale DNS list. */
  lemma {:induction false} StaleRedetection(first: seq<Adapter>, again: seq<Adapter>)
    requires PriorityIndex(first).Some?
    requires |again| == |first|
    requires forall k :: 0 <= k < |first| ==> again[k].status == first[k].status && again[k].metric == first[k].metric
    ensures PriorityIndex(first + again) == PriorityIndex(first)
    ensures DetectTier(first + again) == DetectTier(first)
  {
    var both := first + again;
    var i := PriorityIndex(first).value;
    assert both[i] == first[i];
    assert PriorityIndex(both).Some?;
    forall k | |first| <= k < |both| && IsActive(both[k])
      ensures both[i].metric <= both[k].metric
    {
      assert both[k].metric == first[k - |first|].metric && IsActive(first[k - |first|]);
    }
  }

  /** Within one manager, applying a rung and detecting again does not report that rung when
      the first detection read another: the stale entry decides, as `StaleRedetection` shows. */
  lemma ApplyThenRedetectAsWritten(ads: seq<Adapter>, number: int)
    requires ApplyTier(ads, number).0
    requires DetectTier(ads) != Ladder[number - 1]
    ensures DetectTier(ads + Perform(ads, ApplyTier(ads, number).1.value)) != Ladder[number - 1]
  {
    StaleRedetection(ads, Perform(ads, ApplyTier(ads, number).1.value));
  }

  /** An adapter whose first server is the primary of rung k (k < 6) is detected on rung k. */
  lemma DetectRung(ads: seq<Adapter>, k: nat)
    requires k < 6
    requires PriorityAdapter(ads).Some?
    requires |PriorityAdapter(ads).value.dnsServers| > 0
    requires PriorityAdapter(ads).value.dnsServers[0] == Ladder[k].primary
    ensures DetectTier(ads) == Ladder[k]
  {
    assert RungOf(Ladder[k].primary) == Some(k);
  }

  /** `\d+(?:\.\d+)?` at `i`: its value and the position after it. */
  function NumberAt(s: string, i: nat): (r: Option<(real, nat)>)
    ensures r.Some? ==> r.value.0 >= 0.0 && i < r.value.1 <= |s|
  {
    if i >= |s| || !Text.IsDigit(s[i]) then None
    else
      var e := Text.DigitEnd(s, i);
      if e + 1 < |s| && s[e] == '.' && Text.IsDigit(s[e + 1]) then
        var f := Text.DigitEnd(s, e + 1);
        Some((Text.DecimalOf(s[i..e], s[e + 1..f]), f))
      else Some((Text.DecimalOf(s[i..e], ""), e))
  }

  datatype Unit = Gbps | Mbps

  /** `\s*([GM]?bps)` at `i`; a bare `bps` counts like `Mbps`, as in the source. */
  function UnitAt(s: string, i: nat): (r: Option<Unit>)
    requires i <= |s|
  {
    var u := Text.SkipSpaces(s, i);
    if Text.At(s, u, "Gbps") then Some(Gbps)
    else if Text.At(s, u, "Mbps") || Text.At(s, u, "bps") then Some(Mbps)
    else None
  }

  /** `(\d+(?:\.\d+)?)\s*([GM]?bps)` at `i`: the number and its unit. */
  function SpeedAt(s: string, i: nat): (r: Option<(real, Unit)>)
    ensures r.Some? ==> r.value.0 >= 0.0
  {
    var n := NumberAt(s, i);
    if n.None? then None
    else match UnitAt(s, n.value.1)
      case None => None
      case Some(u) => Some((n.value.0, u))
  }

  /** `int(value * 1000)` for Gbps, `int(value)` otherwise; the values are never negative. */
  function ToMbps(v: real, u: Unit): (r: int)
    requires v >= 0.0
    ensures r >= 0
    ensures u == Mbps ==> r as real <= v < r as real + 1.0
    ensures u == Gbps ==> r as real <= v * 1000.0 < r as real + 1.0
  {
    match u
    case Gbps => (v * 1000.0).Floor
    case Mbps => v.Floor
  }

  /** Speed in Mbps from the `LinkSpeed` text: absent reads as "0 Mbps", unparsable as 1000. */
  function LinkSpeedMbps(field: Option<string>): (r: int)
    ensures field.None? ==> r == 0
    ensures field.Some? && (forall k :: 0 <= k <= |field.value| ==> SpeedAt(field.value, k).None?) ==>
              r == 1000
    ensures field.Some? ==> r >= 0
  {
    if field.None? then 0
    else
      var hit := Text.Search(|field.value|, k => SpeedAt(field.value, k));
      if hit.Some? then ToMbps(hit.value.0, hit.value.1) else 1000
  }

  /** A text "N Gbps" reads as N * 1000 Mbps, "N Mbps" as N. */
  lemma LinkSpeedOfPlainNumber(ds: string, w: string)
    requires |ds| > 0 && Text.AllDigits(ds)
    requires w == "Gbps" || w == "Mbps"
    ensures LinkSpeedMbps(Some(ds + [' '] + w)) ==
              if w == "Gbps" then Text.NatOf(ds) * 1000 else Text.NatOf(ds)
  {
    var s := ds + [' '] + w;
    SpeedOfPlainNumber(ds, w);
    assert Text.FirstHit(|s| + 1, 0, k => SpeedAt(s, k)) == Some(0);
    var n := Text.NatOf(ds);
    assert (n * 1000) as real == n as real * 1000.0;
  }

  lemma SpeedOfPlainNumber(ds: string, w: string)
    requires |ds| > 0 && Text.AllDigits(ds)
    requires w == "Gbps" || w == "Mbps"
    ensures SpeedAt(ds + [' '] + w, 0) == Some((Text.NatOf(ds) as real, if w == "Gbps" then Gbps else Mbps))
  {
    var s := ds + [' '] + w;
    NumberOfPlainDigits(ds, [' '] + w);
    assert s == ds + ([' '] + w);
    UnitOfWord(ds, w);
  }

  lemma UnitOfWord(ds: string, w: string)
    requires w == "Gbps" || w == "Mbps"
    ensures UnitAt(ds + [' '] + w, |ds|) == Some(if w == "Gbps" then Gbps else Mbps)
  {
    var s := ds + [' '] + w;
    assert s[|ds|] == ' ';
    assert Text.SkipSpaces(s, |ds|) == |ds| + 1;
    assert s[|ds| + 1..] == w;
    if w != "Gbps" {
      assert s[|ds| + 1] == 'M';
      assert !Text.At(s, |ds| + 1, "Gbps");
    }
  }

  lemma NumberOfPlainDigits(ds: string, rest: string)
    requires |ds| > 0 && Text.AllDigits(ds)
    requires |rest| > 0 && !Text.IsDigit(rest[0]) && rest[0] != '.'
    ensures NumberAt(ds + rest, 0) == Some((Text.NatOf(ds) as real, |ds|))
  {
    var s := ds + rest;
    assert s[0..|ds|] == ds;
    Text.DigitRunOf(s, 0, ds);
    Text.DecimalOfWhole(ds);
  }

  /** `InterfaceMetric`: a missing value counts as 100. */
  function MetricOf(field: Option<int>): (r: int)
    ensures field.Some? ==> r == field.value
    ensures field.None? ==> r == 100
  {
    field.GetOr(100)
  }
}
