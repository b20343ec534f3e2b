/** The configurable alert system of the Python client: per-type thresholds, a cooldown
    between alerts of one type, automatic resolution when a metric returns to normal, a
    history capped at 1000 alerts, and the statistics over that history.

    The clock is a parameter (`now`, in seconds); alert messages and the notification
    callbacks are not modelled. */
module AlertSystem {
  import opened Wrappers
  import Seqs

  datatype AlertType = LatencyHigh | PacketLossHigh | SpeedLow | DnsFailure | AdapterError | MemoryHigh

  datatype Severity = Info | Warning | Critical

  const AllTypes: set<AlertType> := {LatencyHigh, PacketLossHigh, SpeedLow, DnsFailure, AdapterError, MemoryHigh}
  const AllSeverities: set<Severity> := {Info, Warning, Critical}

  datatype Threshold = Threshold(value: real, severity: Severity, enabled: bool, cooldownMinutes: int)

  datatype Alert = Alert(kind: AlertType, severity: Severity, timestamp: int, currentValue: real,
                         thresholdValue: real, resolved: bool, resolvedAt: Option<int>)

  datatype State = State(thresholds: map<AlertType, Threshold>, history: seq<Alert>, lastAlert: map<AlertType, int>)

  const MaxHistory: nat := 1000
  const AutoResolveAfterMinutes: nat := 30

  const DefaultThresholds: map<AlertType, Threshold> := map[
    LatencyHigh := Threshold(100.0, Warning, true, 5),
    PacketLossHigh := Threshold(2.0, Critical, true, 3),
    SpeedLow := Threshold(10.0, Warning, true, 10),
    DnsFailure := Threshold(3.0, Critical, true, 2),
    AdapterError := Threshold(10.0, Warning, true, 5),
    MemoryHigh := Threshold(80.0, Info, true, 15)]

  function Init(): (st: State)
    ensures st.thresholds.Keys == AllTypes && st.history == [] && st.lastAlert == map[]
  {
    State(DefaultThresholds, [], map[])
  }

  /** `set_threshold`: a known type gets the new value, and the severity and cooldown when
      they are given; an unknown type changes nothing. */
  function SetThreshold(st: State, t: AlertType, value: real, severity: Option<Severity>, cooldown: Option<int>): (r: State)
    ensures t !in st.thresholds ==> r == st
    ensures t in st.thresholds ==>
      (r.history == st.history && r.lastAlert == st.lastAlert
       && r.thresholds.Keys == st.thresholds.Keys
       && r.thresholds[t].value == value
       && r.thresholds[t].severity == severity.GetOr(st.thresholds[t].severity)
       && r.thresholds[t].cooldownMinutes == cooldown.GetOr(st.thresholds[t].cooldownMinutes)
       && r.thresholds[t].enabled == st.thresholds[t].enabled
       && forall u :: u in st.thresholds && u != t ==> r.thresholds[u] == st.thresholds[u])
  {
    if t !in st.thresholds then st
    else
      var cur := st.thresholds[t];
      var th := cur.(value := value, severity := severity.GetOr(cur.severity),
                     cooldownMinutes := cooldown.GetOr(cur.cooldownMinutes));
      st.(thresholds := st.thresholds[t := th])
  }

  /** `enable_alert`. */
  function EnableAlert(st: State, t: AlertType, enabled: bool): (r: State)
    ensures t !in st.thresholds ==> r == st
    ensures t in st.thresholds ==>
      r == st.(thresholds := st.thresholds[t := st.thresholds[t].(enabled := enabled)])
  {
    if t !in st.thresholds then st
    else st.(thresholds := st.thresholds[t := st.thresholds[t].(enabled := enabled)])
  }

  /** `_can_trigger_alert`: the first alert of a type may always fire; a later one only once
      the type's cooldown has passed since the previous one. */
  predicate CanTrigger(st: State, t: AlertType, now: int)
    requires t in st.thresholds
  {
    t !in st.lastAlert || now - st.lastAlert[t] >= st.thresholds[t].cooldownMinutes * 60
  }

  predicate OpenOf(a: Alert, t: AlertType) { a.kind == t && !a.resolved }

  /** The position of the most recent unresolved alert of type `t`. */
  function LastOpen(h: seq<Alert>, t: AlertType): (r: Option<nat>)
    ensures r.None? <==> forall k :: 0 <= k < |h| ==> !OpenOf(h[k], t)
    ensures r.Some? ==> r.value < |h| && OpenOf(h[r.value], t)
    ensures r.Some? ==> forall k :: r.value < k < |h| ==> !OpenOf(h[k], t)
  {
    if |h| == 0 then None
    else if OpenOf(h[|h| - 1], t) then Some(|h| - 1)
    else
      var r := LastOpen(h[..|h| - 1], t);
      assert forall k :: 0 <= k < |h| - 1 ==> h[..|h| - 1][k] == h[k];
      r
  }

  /** `_auto_resolve_alert`: the most recent unresolved alert of type `t`, and no other,
      becomes resolved at `now`. */
  function AutoResolve(h: seq<Alert>, t: AlertType, now: int): (r: seq<Alert>)
    ensures |r| == |h|
    ensures LastOpen(h, t).None? ==> r == h
    ensures LastOpen(h, t).Some? ==>
      (var i := LastOpen(h, t).value;
       r[i] == h[i].(resolved := true, resolvedAt := Some(now))
       && forall k :: 0 <= k < |h| && k != i ==> r[k] == h[k])
  {
    match LastOpen(h, t)
    case None => h
    case Some(i) => h[i := h[i].(resolved := true, resolvedAt := Some(now))]
  }

  /** Only one alert is resolved at a time: after auto-resolution an earlier unresolved alert
      of the same type stays open. */
  lemma AutoResolveOnlyLatest(h: seq<Alert>, t: AlertType, now: int, j: nat)
    requires j < |h| && OpenOf(h[j], t)
    requires exists k :: j < k < |h| && OpenOf(h[k], t)
    ensures OpenOf(AutoResolve(h, t, now)[j], t)
  {
    var k :| j < k < |h| && OpenOf(h[k], t);
    assert LastOpen(h, t).value >= k;
  }

  /** Whether a value breaches its threshold as the source compares them: above it, for every
      type, including the speed type whose threshold is a minimum. */
  predicate BreachAsWritten(value: real, threshold: real) {
    value > threshold
  }

  /** Whether a value breaches its threshold: below it for the minimum-speed type, above it for
      every other type. */
  predicate Breach(t: AlertType, value: real, threshold: real) {
    if t == SpeedLow then value < threshold else value > threshold
  }

  /** The caller checks the download rate only when it is below 10 Mbps, and as written a value
      below the 10 Mbps threshold never breaches it: the low-speed alert cannot fire. */
  lemma SpeedAlertAsWrittenNeverFires(rate: real)
    requires rate < 10.0
    ensures !BreachAsWritten(rate, DefaultThresholds[SpeedLow].value)
    ensures Breach(SpeedLow, rate, DefaultThresholds[SpeedLow].value)
  {
  }

  /** A fast link breaches the speed threshold as written. */
  lemma FastLinkBreachesAsWritten()
    ensures BreachAsWritten(100.0, DefaultThresholds[SpeedLow].value)
    ensures !Breach(SpeedLow, 100.0, DefaultThresholds[SpeedLow].value)
  {
  }

  /** The two comparisons agree on every type except the speed type. */
  lemma BreachAgreesExceptSpeed(t: AlertType, value: real, threshold: real)
    requires t != SpeedLow
    ensures Breach(t, value, threshold) == BreachAsWritten(value, threshold)
  {
  }

  /** `_trim_history`: the most recent 1000 alerts. */
  function Trim(h: seq<Alert>): (r: seq<Alert>)
    ensures |r| <= MaxHistory
    ensures |h| <= MaxHistory ==> r == h
    ensures |h| > MaxHistory ==> r == h[|h| - MaxHistory..]
  {
    Seqs.TakeLast(h, MaxHistory)
  }

  /** `check_metric`. An unknown or disabled type yields nothing and changes nothing. A value
      within its threshold yields nothing and auto-resolves the latest open alert of its type.
      A breach fires exactly when the cooldown allows: one new alert is appended (the history
      then trimmed) and the type's last alert time becomes `now`; otherwise nothing changes. */
  function CheckMetric(st: State, t: AlertType, value: real, now: int): (r: (State, Option<Alert>))
    ensures t !in st.thresholds || !st.thresholds[t].enabled ==> r == (st, None)
    ensures t in st.thresholds && st.thresholds[t].enabled && !Breach(t, value, st.thresholds[t].value) ==>
      r == (st.(history := AutoResolve(st.history, t, now)), None)
    ensures t in st.thresholds && st.thresholds[t].enabled && Breach(t, value, st.thresholds[t].value) ==>
      (r.1.Some? <==> CanTrigger(st, t, now))
    ensures (t in st.thresholds && st.thresholds[t].enabled && Breach(t, value, st.thresholds[t].value)
             && !CanTrigger(st, t, now)) ==> r == (st, None)
    ensures r.1.Some? ==>
      (var a := r.1.value;
       a.kind == t && a.currentValue == value && a.timestamp == now && !a.resolved
       && a.severity == st.thresholds[t].severity && a.thresholdValue == st.thresholds[t].value
       && r.0 == State(st.thresholds, Trim(st.history + [a]), st.lastAlert[t := now]))
  {
    if t !in st.thresholds then (st, None)
    else
      var th := st.thresholds[t];
      if !th.enabled then (st, None)
      else if !Breach(t, value, th.value) then (st.(history := AutoResolve(st.history, t, now)), None)
      else if !CanTrigger(st, t, now) then (st, None)
      else
        var a := Alert(t, th.severity, now, value, th.value, false, None);
        (State(st.thresholds, Trim(st.history + [a]), st.lastAlert[t := now]), Some(a))
  }

  /** A fired alert is the newest entry of the history. */
  lemma FiredAlertIsNewest(st: State, t: AlertType, value: real, now: int)
    requires CheckMetric(st, t, value, now).1.Some?
    ensures var r := CheckMetric(st, t, value, now);
      |r.0.history| > 0 && r.0.history[|r.0.history| - 1] == r.1.value
  {
  }

  /** Right after an alert fires, the same breach does not fire again before the cooldown. */
  lemma NoRefireInCooldown(st: State, t: AlertType, value: real, now: int, later: int)
    requires CheckMetric(st, t, value, now).1.Some?
    requires now <= later < now + st.thresholds[t].cooldownMinutes * 60
    ensures CheckMetric(CheckMetric(st, t, value, now).0, t, value, later).1.None?
  {
  }

  /** `resolve_alert` on the alert at position `i`: an unresolved alert becomes resolved at
      `now`; a resolved one keeps its first resolution time. */
  function ResolveAlert(st: State, i: nat, now: int): (r: State)
    ensures |r.history| == |st.history| && r.thresholds == st.thresholds && r.lastAlert == st.lastAlert
    ensures i < |st.history| ==> r.history[i].resolved
    ensures i < |st.history| && st.history[i].resolved ==> r == st
    ensures forall k :: 0 <= k < |st.history| && k != i ==> r.history[k] == st.history[k]
  {
    if i >= |st.history| || st.history[i].resolved then st
    else st.(history := st.history[i := st.history[i].(resolved := true, resolvedAt := Some(now))])
  }

  /** Resolving twice is resolving once. */
  lemma ResolveIdempotent(st: State, i: nat, now: int, later: int)
    ensures ResolveAlert(ResolveAlert(st, i, now), i, later) == ResolveAlert(st, i, now)
  {
  }

  /** `clear_history`. */
  function ClearHistory(st: State): (r: State)
    ensures r.history == [] && r.lastAlert == map[] && r.thresholds == st.thresholds
  {
    st.(history := [], lastAlert := map[])
  }

  /** `get_active_alerts`. */
  function Active(h: seq<Alert>): (r: seq<Alert>)
    ensures forall k :: 0 <= k < |r| ==> r[k] in h && !r[k].resolved
    ensures forall k :: 0 <= k < |h| && !h[k].resolved ==> h[k] in r
  {
    Seqs.Filter(h, (a: Alert) => !a.resolved)
  }

  /** `get_recent_alerts`: alerts at or after `hours` before `now`. */
  function Recent(h: seq<Alert>, hours: int, now: int): (r: seq<Alert>)
    ensures forall k :: 0 <= k < |r| ==> r[k] in h && r[k].timestamp >= now - hours * 3600
    ensures forall k :: 0 <= k < |h| && h[k].timestamp >= now - hours * 3600 ==> h[k] in r
  {
    Seqs.Filter(h, (a: Alert) => a.timestamp >= now - hours * 3600)
  }

  /** `get_alerts_by_type`. */
  function OfType(h: seq<Alert>, t: AlertType): (r: seq<Alert>)
    ensures forall k :: 0 <= k < |r| ==> r[k] in h && r[k].kind == t
    ensures forall k :: 0 <= k < |h| && h[k].kind == t ==> h[k] in r
  {
    Seqs.Filter(h, (a: Alert) => a.kind == t)
  }

  function KindCount(h: seq<Alert>, t: AlertType): nat {
    if |h| == 0 then 0 else (if h[0].kind == t then 1 else 0) + KindCount(h[1..], t)
  }

  function SeverityCount(h: seq<Alert>, s: Severity): nat {
    if |h| == 0 then 0 else (if h[0].severity == s then 1 else 0) + SeverityCount(h[1..], s)
  }

  /** Every alert has exactly one type, so the per-type counts add up to the history length. */
  lemma {:induction false} KindCountsSum(h: seq<Alert>)
    ensures KindCount(h, LatencyHigh) + KindCount(h, PacketLossHigh) + KindCount(h, SpeedLow)
          + KindCount(h, DnsFailure) + KindCount(h, AdapterError) + KindCount(h, MemoryHigh) == |h|
  {
    if |h| > 0 {
      KindCountsSum(h[1..]);
    }
  }

  /** Likewise for severities. */
  lemma {:induction false} SeverityCountsSum(h: seq<Alert>)
    ensures SeverityCount(h, Info) + SeverityCount(h, Warning) + SeverityCount(h, Critical) == |h|
  {
    if |h| > 0 {
      SeverityCountsSum(h[1..]);
    }
  }

  datatype Stats = Stats(total: nat, active: nat, resolved: nat,
                         byType: map<AlertType, nat>, bySeverity: map<Severity, nat>)

  /** `get_stats`: totals, and per-type and per-severity counts listing only the values that
      occur. The resolved count is the number of resolved alerts. */
  function GetStats(h: seq<Alert>): (r: Stats)
    ensures r.total == |h| && r.active == |Active(h)| && r.active + r.resolved == r.total
    ensures r.resolved == Seqs.Count(h, (a: Alert) => a.resolved)
    ensures forall t :: t in r.byType <==> KindCount(h, t) > 0
    ensures forall t :: t in r.byType ==> r.byType[t] == KindCount(h, t)
    ensures forall s :: s in r.bySeverity <==> SeverityCount(h, s) > 0
    ensures forall s :: s in r.bySeverity ==> r.bySeverity[s] == SeverityCount(h, s)
  {
    Seqs.CountComplement(h, (a: Alert) => !a.resolved, (a: Alert) => a.resolved);
    Stats(|h|, |Active(h)|, |h| - |Active(h)|,
          map t | t in AllTypes && KindCount(h, t) > 0 :: KindCount(h, t),
          map s | s in AllSeverities && SeverityCount(h, s) > 0 :: SeverityCount(h, s))
  }
}
