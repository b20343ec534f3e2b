/** The automatic DNS failover controller of the Python client.

    One cycle of the background loop is the step function `Check`: it reads the active tier off
    the priority adapter, asks the health table whether that tier is healthy, respects a 30 s
    cooldown, picks the next tier and records one event. The wall clock is the parameter `now`
    (seconds); the command that switches DNS is returned as an `AdapterManager.Action`. */
module AutoFailover {
  import opened Wrappers
  import Seqs
  import Ranking
  import DnsHealth
  import AdapterManager

  type Tier = AdapterManager.Tier

  const CooldownSeconds: int := 30
  /** `_is_tier_healthy` tolerates up to two consecutive failures. */
  const TierFailureLimit: nat := 3
  const Reason: string := "DNS tier unhealthy"

  datatype Event = Event(timestamp: int, fromTier: int, toTier: int, reason: string, success: bool)

  datatype Manager = Manager(enabled: bool, running: bool, currentTier: Option<int>,
                             lastFailover: Option<int>, history: seq<Event>)

  /** The outcome of one cycle: the new state, the DNS command issued and the event announced. */
  datatype Cycle = Cycle(manager: Manager, action: Option<AdapterManager.Action>, notified: Option<Event>)

  const Initial: Manager := Manager(false, false, None, None, [])

  /** `enable`: the flag set, the loop state and the log kept. */
  function Enable(m: Manager): (r: Manager)
    ensures r.enabled
    ensures r.running == m.running && r.currentTier == m.currentTier
            && r.lastFailover == m.lastFailover && r.history == m.history
  {
    m.(enabled := true)
  }

  /** `disable`: the flag cleared, the loop state and the log kept. */
  function Disable(m: Manager): (r: Manager)
    ensures !r.enabled
    ensures r.running == m.running && r.currentTier == m.currentTier
            && r.lastFailover == m.lastFailover && r.history == m.history
  {
    m.(enabled := false)
  }

  /** `start`: a second start leaves the controller as it is. */
  function Start(m: Manager): (r: Manager)
    ensures r.running
    ensures m.running ==> r == m
    ensures r == m.(running := true)
  {
    if m.running then m else m.(running := true)
  }

  lemma StartIdempotent(m: Manager)
    ensures Start(Start(m)) == Start(m)
  {
  }

  /** `_detect_current_tier`: the first tier whose primary is the priority adapter's first DNS
      server; an unknown server is taken to be the first tier. */
  function DetectTier(ads: seq<AdapterManager.Adapter>, tiers: seq<Tier>): (r: Option<Tier>)
    ensures r.Some? ==> r.value in tiers
    ensures AdapterManager.PriorityAdapter(ads).None? ==> r.None?
    ensures (AdapterManager.PriorityAdapter(ads).Some? &&
             |AdapterManager.PriorityAdapter(ads).value.dnsServers| == 0) ==> r.None?
    ensures (AdapterManager.PriorityAdapter(ads).Some? &&
             |AdapterManager.PriorityAdapter(ads).value.dnsServers| > 0) ==>
              var dns := AdapterManager.PriorityAdapter(ads).value.dnsServers[0];
              match Seqs.FirstIndex(tiers, (t: Tier) => t.primary == dns)
              case Some(k) => r == Some(tiers[k])
              case None => r == (if |tiers| > 0 then Some(tiers[0]) else None)
  {
    match AdapterManager.PriorityAdapter(ads)
    case None => None
    case Some(a) =>
      if |a.dnsServers| == 0 then None
      else
        var dns := a.dnsServers[0];
        match Seqs.FirstIndex(tiers, (t: Tier) => t.primary == dns)
        case Some(k) => Some(tiers[k])
        case None => if |tiers| > 0 then Some(tiers[0]) else None
  }

  /** `_is_tier_healthy`: DHCP is always healthy; another tier needs its primary server to be
      known, UP or SLOW, and below the failure limit. */
  function TierHealthy(health: seq<DnsHealth.Health>, t: Tier): (r: bool)
    requires DnsHealth.Distinct(health)
    ensures t.number == AdapterManager.DhcpTier ==> r
    ensures t.number != AdapterManager.DhcpTier ==>
              (r <==> exists i :: 0 <= i < |health| && health[i].server == t.primary &&
                        health[i].status in {DnsHealth.Up, DnsHealth.Slow} &&
                        health[i].failures < TierFailureLimit)
  {
    if t.number == AdapterManager.DhcpTier then true
    else match DnsHealth.GetStatus(health, t.primary)
      case None => false
      case Some(h) => h.status in {DnsHealth.Up, DnsHealth.Slow} && h.failures < TierFailureLimit
  }

  /** The health tracker calls a server healthy below two failures, this controller below three.
      On a table the tracker maintains, a failure count above zero implies DOWN, so the two
      bounds never disagree. */
  lemma ThresholdsAgree(health: seq<DnsHealth.Health>, t: Tier)
    requires DnsHealth.Valid(health)
    requires t.number != AdapterManager.DhcpTier
    ensures TierHealthy(health, t) <==> DnsHealth.IsHealthy(health, t.primary)
  {
    DnsHealth.HealthyIffLive(health, t.primary);
    match DnsHealth.GetStatus(health, t.primary)
    case None =>
    case Some(h) =>
      var i :| 0 <= i < |health| && health[i].server == t.primary;
      assert DnsHealth.Consistent(health[i]);
  }

  /** `_can_failover`: never switched, or the last switch is at least 30 s old. */
  function CanFailover(m: Manager, now: int): (r: bool)
    ensures r <==> m.lastFailover.None? || now - m.lastFailover.value >= CooldownSeconds
  {
    match m.lastFailover
    case None => true
    case Some(t) => now - t >= CooldownSeconds
  }

  /** Some tier is numbered above `current`. */
  function AnyAbove(tiers: seq<Tier>, current: int): (r: bool)
    ensures r <==> exists k :: 0 <= k < |tiers| && tiers[k].number > current
  {
    if |tiers| == 0 then false else tiers[0].number > current || AnyAbove(tiers[1..], current)
  }

  /** The tiers the search may move to: those numbered above the current one, or, when there
      are none, those numbered below it. */
  predicate Candidate(tiers: seq<Tier>, current: int, t: Tier) {
    if AnyAbove(tiers, current) then t.number > current else t.number < current
  }

  function Number(t: Tier): real {
    t.number as real
  }

  /** `_find_next_healthy_tier` as its loop runs once the log line is repaired: the candidates
      in ascending tier order, the first healthy one, else the DHCP tier. */
  function FindNext(health: seq<DnsHealth.Health>, tiers: seq<Tier>, current: int): (r: Option<Tier>)
    requires DnsHealth.Distinct(health)
    ensures r.Some? ==> r.value in tiers && TierHealthy(health, r.value)
  {
    var cands := Candidates(tiers, current);
    match Seqs.FirstIndex(cands, (t: Tier) => TierHealthy(health, t))
    case Some(i) => Some(cands[i])
    case None =>
      match Seqs.FirstIndex(tiers, (t: Tier) => t.number == AdapterManager.DhcpTier)
      case Some(k) => Some(tiers[k])
      case None => None
  }

  /** When some candidate is healthy, the search returns the lowest-numbered healthy candidate. */
  lemma FindNextLowest(health: seq<DnsHealth.Health>, tiers: seq<Tier>, current: int, k: nat)
    requires DnsHealth.Distinct(health)
    requires k < |tiers| && Candidate(tiers, current, tiers[k]) && TierHealthy(health, tiers[k])
    ensures var r := FindNext(health, tiers, current);
            r.Some? && Candidate(tiers, current, r.value) &&
            forall j :: (0 <= j < |tiers| && Candidate(tiers, current, tiers[j]) &&
                         TierHealthy(health, tiers[j])) ==> r.value.number <= tiers[j].number
  {
    var cands := Candidates(tiers, current);
    var ok := (t: Tier) => TierHealthy(health, t);
    var i := FirstOkIsLowest(tiers, current, ok, k);
    assert FindNext(health, tiers, current) == Some(cands[i]);
  }

  /** Among the candidates, the first one a test accepts has the lowest number of all the
      accepted candidates. */
  lemma FirstOkIsLowest(tiers: seq<Tier>, current: int, ok: Tier -> bool, k: nat) returns (i: nat)
    requires k < |tiers| && Candidate(tiers, current, tiers[k]) && ok(tiers[k])
    ensures Seqs.FirstIndex(Candidates(tiers, current), ok) == Some(i)
    ensures i < |Candidates(tiers, current)| && Candidate(tiers, current, Candidates(tiers, current)[i])
    ensures forall j :: 0 <= j < |tiers| && Candidate(tiers, current, tiers[j]) && ok(tiers[j]) ==>
              Candidates(tiers, current)[i].number <= tiers[j].number
  {
    var cands := Candidates(tiers, current);
    var p :| 0 <= p < |cands| && cands[p] == tiers[k];
    assert ok(cands[p]);
    i := Seqs.FirstIndex(cands, ok).value;
    FirstIsLowest(cands, ok, i);
    forall j | 0 <= j < |tiers| && Candidate(tiers, current, tiers[j]) && ok(tiers[j])
      ensures cands[i].number <= tiers[j].number
    {
      var q :| 0 <= q < |cands| && cands[q] == tiers[j];
    }
  }

  /** When no candidate is healthy, the search falls back to the first DHCP tier, if any. */
  lemma FindNextFallback(health: seq<DnsHealth.Health>, tiers: seq<Tier>, current: int)
    requires DnsHealth.Distinct(health)
    requires forall k :: 0 <= k < |tiers| && Candidate(tiers, current, tiers[k]) ==>
                         !TierHealthy(health, tiers[k])
    ensures FindNext(health, tiers, current) ==
              match Seqs.FirstIndex(tiers, (t: Tier) => t.number == AdapterManager.DhcpTier)
              case Some(k) => Some(tiers[k])
              case None => None
  {
  }

  /** When no listed candidate passes `ok`, no candidate tier at all passes it. */
  lemma NoCandidatePasses(tiers: seq<Tier>, current: int, ok: Tier -> bool)
    requires Seqs.FirstIndex(Candidates(tiers, current), ok).None?
    ensures forall k :: 0 <= k < |tiers| && Candidate(tiers, current, tiers[k]) ==> !ok(tiers[k])
  {
    var cands := Candidates(tiers, current);
    forall k | 0 <= k < |tiers| && Candidate(tiers, current, tiers[k]) ensures !ok(tiers[k]) {
      var j :| 0 <= j < |cands| && cands[j] == tiers[k];
    }
  }

  /** The candidate list, in ascending tier order. */
  function Candidates(tiers: seq<Tier>, current: int): (r: seq<Tier>)
    ensures forall a, b :: 0 <= a < b < |r| ==> r[a].number <= r[b].number
    ensures forall k :: 0 <= k < |r| ==> r[k] in tiers && Candidate(tiers, current, r[k])
    ensures forall k :: 0 <= k < |tiers| && Candidate(tiers, current, tiers[k]) ==> tiers[k] in r
  {
    var sorted := Ranking.SortAscendingBy(tiers, Number);
    var up := (t: Tier) => t.number > current;
    var down := (t: Tier) => t.number < current;
    var above := Seqs.Filter(sorted, up);
    Seqs.FilterKeepsOrder(sorted, up, Number);
    Seqs.FilterOfPermutation(sorted, tiers, up);
    if AnyAbove(tiers, current) then
      above
    else
      var below := Seqs.Filter(sorted, down);
      Seqs.FilterKeepsOrder(sorted, down, Number);
      Seqs.FilterOfPermutation(sorted, tiers, down);
      below
  }

  /** In a list in ascending tier order, the first tier passing `ok` has the lowest number among
      those passing it. */
  lemma FirstIsLowest(cands: seq<Tier>, ok: Tier -> bool, i: nat)
    requires forall a, b :: 0 <= a < b < |cands| ==> cands[a].number <= cands[b].number
    requires Seqs.FirstIndex(cands, ok) == Some(i)
    ensures forall j :: 0 <= j < |cands| && ok(cands[j]) ==> cands[i].number <= cands[j].number
  {
  }

  /** `_check_and_failover` with the log line repaired. A failure reported by the adapter manager
      still counts as a switch: the event is recorded with `success` false. */
  function Check(m: Manager, ads: seq<AdapterManager.Adapter>, tiers: seq<Tier>,
                 health: seq<DnsHealth.Health>, now: int): (r: Cycle)
    requires DnsHealth.Distinct(health)
    ensures DetectTier(ads, tiers).None? ==> r == Cycle(m, None, None)
    ensures DetectTier(ads, tiers).Some? ==>
              var cur := DetectTier(ads, tiers).value;
              var next := FindNext(health, tiers, cur.number);
              var stay := Cycle(m.(currentTier := Some(cur.number)), None, None);
              if TierHealthy(health, cur) || !CanFailover(m, now) || next.None? then r == stay
              else
                var applied := AdapterManager.ApplyTier(ads, next.value.number);
                var ev := Event(now, cur.number, next.value.number, Reason, applied.0);
                r.manager == m.(currentTier := Some(cur.number), lastFailover := Some(now),
                                history := m.history + [ev]) &&
                r.action == applied.1 && r.notified == Some(ev)
  {
    match DetectTier(ads, tiers)
    case None => Cycle(m, None, None)
    case Some(cur) =>
      var m1 := m.(currentTier := Some(cur.number));
      if TierHealthy(health, cur) || !CanFailover(m1, now) then Cycle(m1, None, None)
      else match FindNext(health, tiers, cur.number)
        case None => Cycle(m1, None, None)
        case Some(next) =>
          var applied := AdapterManager.ApplyTier(ads, next.number);
          var ev := Event(now, cur.number, next.number, Reason, applied.0);
          Cycle(m1.(lastFailover := Some(now), history := m1.history + [ev]), applied.1, Some(ev))
  }

  /** A cycle either leaves the audit log alone or appends exactly one event, which it also
      announces, and a switch starts a new cooldown. */
  lemma CheckAppendsAtMostOne(m: Manager, ads: seq<AdapterManager.Adapter>, tiers: seq<Tier>,
                              health: seq<DnsHealth.Health>, now: int)
    requires DnsHealth.Distinct(health)
    ensures var r := Check(m, ads, tiers, health, now);
            (r.manager.history == m.history && r.notified.None? && r.action.None? &&
             r.manager.lastFailover == m.lastFailover) ||
            (r.notified.Some? && r.manager.history == m.history + [r.notified.value] &&
             r.manager.lastFailover == Some(now) && !CanFailover(r.manager, now + CooldownSeconds - 1))
  {
  }

  /** Inside the cooldown a cycle records nothing. */
  lemma CheckQuietInCooldown(m: Manager, ads: seq<AdapterManager.Adapter>, tiers: seq<Tier>,
                             health: seq<DnsHealth.Health>, now: int)
    requires DnsHealth.Distinct(health)
    requires !CanFailover(m, now)
    ensures var r := Check(m, ads, tiers, health, now);
            r.manager.history == m.history && r.action.None? && r.notified.None?
  {
  }

  /** No switch inside the cooldown: after a switch, a cycle less than 30 s later records nothing. */
  lemma NoSwitchDuringCooldown(m: Manager, ads: seq<AdapterManager.Adapter>, tiers: seq<Tier>,
                               health: seq<DnsHealth.Health>, now: int, later: int,
                               ads2: seq<AdapterManager.Adapter>)
    requires DnsHealth.Distinct(health)
    requires now <= later < now + CooldownSeconds
    requires Check(m, ads, tiers, health, now).notified.Some?
    ensures var m1 := Check(m, ads, tiers, health, now).manager;
            Check(m1, ads2, tiers, health, later).manager.history == m1.history
  {
    var m1 := Check(m, ads, tiers, health, now).manager;
    CheckAppendsAtMostOne(m, ads, tiers, health, now);
    assert m1.lastFailover == Some(now);
    CheckQuietInCooldown(m1, ads2, tiers, health, later);
  }

  /** The loop body: nothing happens unless the loop runs and the controller is enabled. */
  function Tick(m: Manager, ads: seq<AdapterManager.Adapter>, tiers: seq<Tier>,
                health: seq<DnsHealth.Health>, now: int): (r: Cycle)
    requires DnsHealth.Distinct(health)
    ensures !(m.running && m.enabled) ==> r == Cycle(m, None, None)
    ensures m.running && m.enabled ==> r == Check(m, ads, tiers, health, now)
  {
    if m.running && m.enabled then Check(m, ads, tiers, health, now) else Cycle(m, None, None)
  }

  /** Each switch undoes the other, whatever the flag was before. */
  lemma EnableDisableUndo(m: Manager)
    ensures !m.enabled ==> Disable(Enable(m)) == m
    ensures m.enabled ==> Enable(Disable(m)) == m
  {
  }

  /** A disabled controller keeps looping but does nothing: no check, no command, no event,
      and its state unchanged; enabled again, a running loop checks as before. */
  lemma DisabledTickIsQuiet(m: Manager, ads: seq<AdapterManager.Adapter>, tiers: seq<Tier>,
                            health: seq<DnsHealth.Health>, now: int)
    requires DnsHealth.Distinct(health)
    ensures Tick(Disable(m), ads, tiers, health, now) == Cycle(Disable(m), None, None)
    ensures m.running ==> Tick(Enable(m), ads, tiers, health, now) == Check(Enable(m), ads, tiers, health, now)
  {
  }

  /** The search as written: the log line for a healthy candidate reads `tier.name`, which a
      tier does not have, so the search raises instead of returning that candidate. */
  function FindNextAsWritten(health: seq<DnsHealth.Health>, tiers: seq<Tier>, current: int): (r: Result<Option<Tier>>)
    requires DnsHealth.Distinct(health)
    ensures r.Err? <==> exists k :: 0 <= k < |tiers| && Candidate(tiers, current, tiers[k]) &&
                                    TierHealthy(health, tiers[k])
    ensures r.Ok? ==> r.value == FindNext(health, tiers, current)
  {
    var cands := Candidates(tiers, current);
    match Seqs.FirstIndex(cands, (t: Tier) => TierHealthy(health, t))
    case Some(i) => Err("AttributeError: 'DNSFallbackTier' object has no attribute 'name'")
    case None =>
      NoCandidatePasses(tiers, current, (t: Tier) => TierHealthy(health, t));
      match Seqs.FirstIndex(tiers, (t: Tier) => t.number == AdapterManager.DhcpTier)
      case Some(k) => Ok(Some(tiers[k]))
      case None => Ok(None)
  }

  /** `_check_and_failover` as written: the exception from the search is caught by the handler
      around the whole cycle, which then ends having recorded only the detected tier. */
  function CheckAsWritten(m: Manager, ads: seq<AdapterManager.Adapter>, tiers: seq<Tier>,
                          health: seq<DnsHealth.Health>, now: int): (r: Cycle)
    requires DnsHealth.Distinct(health)
    ensures r.manager.history == m.history || r == Check(m, ads, tiers, health, now)
  {
    match DetectTier(ads, tiers)
    case None => Cycle(m, None, None)
    case Some(cur) =>
      var m1 := m.(currentTier := Some(cur.number));
      if TierHealthy(health, cur) || !CanFailover(m1, now) then Cycle(m1, None, None)
      else match FindNextAsWritten(health, tiers, cur.number)
        case Err(_) => Cycle(m1, None, None)
        case Ok(None) => Cycle(m1, None, None)
        case Ok(Some(next)) =>
          var applied := AdapterManager.ApplyTier(ads, next.number);
          var ev := Event(now, cur.number, next.number, Reason, applied.0);
          Cycle(m1.(lastFailover := Some(now), history := m1.history + [ev]), applied.1, Some(ev))
  }

  /** As written, a cycle that finds a healthy candidate records nothing and issues no command. */
  lemma AsWrittenQuietWithHealthyCandidate(m: Manager, ads: seq<AdapterManager.Adapter>, tiers: seq<Tier>,
                                           health: seq<DnsHealth.Health>, now: int, k: nat)
    requires DnsHealth.Distinct(health)
    requires DetectTier(ads, tiers).Some?
    requires k < |tiers| && Candidate(tiers, DetectTier(ads, tiers).value.number, tiers[k])
    requires TierHealthy(health, tiers[k])
    ensures var r := CheckAsWritten(m, ads, tiers, health, now);
            r.manager.history == m.history && r.action.None? && r.notified.None?
  {
    assert FindNextAsWritten(health, tiers, DetectTier(ads, tiers).value.number).Err?;
  }

  /** With the standard ladder, the DHCP rung is a healthy candidate whenever the current rung
      is 1 to 6, so the controller as written never switches and never touches DNS. */
  lemma LadderAsWrittenNeverSwitches(m: Manager, ads: seq<AdapterManager.Adapter>,
                                     health: seq<DnsHealth.Health>, now: int)
    requires DnsHealth.Distinct(health)
    ensures var r := CheckAsWritten(m, ads, AdapterManager.Ladder, health, now);
            r.manager.history == m.history && r.action.None? && r.notified.None?
  {
    var tiers := AdapterManager.Ladder;
    var d := DetectTier(ads, tiers);
    if d.Some? {
      if d.value.number != AdapterManager.DhcpTier {
        LadderDhcpIsCandidate(health, d.value);
        AsWrittenQuietWithHealthyCandidate(m, ads, tiers, health, now, 6);
      } else {
        assert TierHealthy(health, d.value);
      }
    }
  }

  /** Below the DHCP rung, the DHCP rung is always a healthy candidate. */
  lemma LadderDhcpIsCandidate(health: seq<DnsHealth.Health>, cur: Tier)
    requires DnsHealth.Distinct(health)
    requires cur in AdapterManager.Ladder && cur.number != AdapterManager.DhcpTier
    ensures AnyAbove(AdapterManager.Ladder, cur.number)
    ensures Candidate(AdapterManager.Ladder, cur.number, AdapterManager.Ladder[6])
    ensures TierHealthy(health, AdapterManager.Ladder[6])
  {
    AdapterManager.LadderNumbered();
    assert AdapterManager.Ladder[6].number > cur.number;
  }

  /** Repaired, the same situation does switch: an unhealthy rung 1 to 6 outside the cooldown
      moves to the lowest healthy rung above it, the DHCP rung at worst. */
  lemma LadderSwitches(m: Manager, ads: seq<AdapterManager.Adapter>,
                       health: seq<DnsHealth.Health>, now: int)
    requires DnsHealth.Distinct(health)
    requires DetectTier(ads, AdapterManager.Ladder).Some?
    requires !TierHealthy(health, DetectTier(ads, AdapterManager.Ladder).value)
    requires CanFailover(m, now)
    ensures var r := Check(m, ads, AdapterManager.Ladder, health, now);
            var cur := DetectTier(ads, AdapterManager.Ladder).value.number;
            r.notified.Some? && r.manager.history == m.history + [r.notified.value] &&
            cur < r.notified.value.toTier <= AdapterManager.DhcpTier
  {
    var tiers := AdapterManager.Ladder;
    var cur := DetectTier(ads, tiers).value;
    LadderDhcpIsCandidate(health, cur);
    var next := FindNext(health, tiers, cur.number);
    assert next.Some? && Candidate(tiers, cur.number, next.value) && next.value in tiers;
    assert next.value.number > cur.number;
    LadderNumbers(next.value);
    CheckSwitches(m, ads, tiers, health, now);
  }

  lemma LadderNumbers(t: Tier)
    requires t in AdapterManager.Ladder
    ensures 1 <= t.number <= AdapterManager.DhcpTier
  {
  }

  /** When the current tier is unhealthy, the cooldown is over and a next tier exists, the cycle
      records the switch to that tier. */
  lemma CheckSwitches(m: Manager, ads: seq<AdapterManager.Adapter>, tiers: seq<Tier>,
                      health: seq<DnsHealth.Health>, now: int)
    requires DnsHealth.Distinct(health)
    requires DetectTier(ads, tiers).Some?
    requires !TierHealthy(health, DetectTier(ads, tiers).value)
    requires CanFailover(m, now)
    requires FindNext(health, tiers, DetectTier(ads, tiers).value.number).Some?
    ensures var r := Check(m, ads, tiers, health, now);
            var next := FindNext(health, tiers, DetectTier(ads, tiers).value.number).value;
            r.notified.Some? && r.notified.value.toTier == next.number &&
            r.manager.history == m.history + [r.notified.value]
  {
  }

  /** `get_history(limit)`: `history[-limit:]`. A limit of 0 slices from position 0 and so
      returns the whole log. */
  function History(m: Manager, limit: int): (r: seq<Event>)
    ensures limit > 0 ==> r == Seqs.TakeLast(m.history, limit)
    ensures limit == 0 ==> r == m.history
    ensures limit < 0 ==> |r| == (if -limit <= |m.history| then |m.history| + limit else 0)
    ensures r == m.history[|m.history| - |r|..]
  {
    Seqs.PySuffix(m.history, -limit)
  }

  datatype Stats = Stats(total: nat, successful: nat, failed: int, lastFailover: Option<int>, enabled: bool)

  /** `get_stats`: failed switches are the recorded events whose `success` is false. */
  function GetStats(m: Manager): (r: Stats)
    ensures r.total == |m.history|
    ensures r.successful == Seqs.Count(m.history, (e: Event) => e.success)
    ensures r.failed == Seqs.Count(m.history, (e: Event) => !e.success)
    ensures r.lastFailover == m.lastFailover && r.enabled == m.enabled
  {
    var total := |m.history|;
    var successful := Seqs.Count(m.history, (e: Event) => e.success);
    Seqs.CountComplement(m.history, (e: Event) => e.success, (e: Event) => !e.success);
    Stats(total, successful, total - successful, m.lastFailover, m.enabled)
  }
}
