/** The Windows event-log monitor of the Python client: classification of network events by
    event ID and message keywords, the capped event list, and the queries and summary over it.

    The PowerShell query is an input (its parsed records); the clock is a parameter `now` in
    seconds. Lower-casing is ASCII-only. */
module WindowsEvents {
  import opened Wrappers
  import Seqs
  import Text

  datatype EventType =
    DnsTimeout | DnsFailure | WlanDisconnect | WlanConnect | WlanLimited
    | AdapterError | NcsiFailure | TcpReset | DhcpFailure

  /** The event IDs classified without looking at the message. */
  const ImportantEvents: map<int, EventType> := map[
    1014 := DnsTimeout, 1015 := DnsFailure,
    8000 := WlanDisconnect, 8001 := WlanConnect, 8002 := WlanLimited, 11004 := WlanDisconnect,
    4042 := NcsiFailure, 1002 := DhcpFailure]

  const MaxEvents: nat := 1000

  /** One record of the query output. The script always emits every key; `None` is a JSON
      `null` (an event without a message or provider name, say). */
  datatype Record = Record(id: Option<int>, message: Option<string>, provider: Option<string>,
                           level: string, timestamp: int)

  /** A stored event; a `null` provider or ID is kept as `None`, as Python keeps it. */
  datatype Event = Event(kind: EventType, timestamp: int, provider: Option<string>, level: string,
                         message: string, id: Option<int>)

  predicate DnsTimeoutWords(m: string) {
    Text.Contains(m, "timeout") || Text.Contains(m, "agotó") || Text.Contains(m, "tiempo de espera")
  }

  predicate FailWords(m: string) { Text.Contains(m, "fail") || Text.Contains(m, "error") }

  predicate DisconnectWords(m: string) { Text.Contains(m, "disconnect") || Text.Contains(m, "desconect") }

  predicate LimitedWords(m: string) {
    Text.Contains(m, "limited") || Text.Contains(m, "limitado") || Text.Contains(m, "limitada")
  }

  predicate ConnectWords(m: string) { Text.Contains(m, "connect") || Text.Contains(m, "conectado") }

  /** The message-keyword classification, on the lower-cased message and provider. */
  function ClassifyText(m: string, provider: string): (r: Option<EventType>)
    ensures (Text.Contains(provider, "dns") || Text.Contains(m, "dns")) && DnsTimeoutWords(m) ==> r == Some(DnsTimeout)
    ensures r == Some(DnsFailure) ==> FailWords(m) && !DnsTimeoutWords(m)
    ensures r == Some(WlanConnect) ==> Text.Contains(provider, "wlan") && !DisconnectWords(m) && !LimitedWords(m)
    ensures r.Some? && r.value in {WlanDisconnect, WlanLimited, WlanConnect} ==> Text.Contains(provider, "wlan")
    ensures r.Some? ==> r.value in {DnsTimeout, DnsFailure, WlanDisconnect, WlanLimited, WlanConnect}
  {
    if (Text.Contains(provider, "dns") || Text.Contains(m, "dns")) && DnsTimeoutWords(m) then Some(DnsTimeout)
    else if (Text.Contains(provider, "dns") || Text.Contains(m, "dns")) && FailWords(m) then Some(DnsFailure)
    else if Text.Contains(provider, "wlan") && DisconnectWords(m) then Some(WlanDisconnect)
    else if Text.Contains(provider, "wlan") && LimitedWords(m) then Some(WlanLimited)
    else if Text.Contains(provider, "wlan") && ConnectWords(m) then Some(WlanConnect)
    else None
  }

  /** `_classify_event`: a known event ID decides alone; otherwise the message keywords do. */
  function Classify(rec: Record): (r: Option<EventType>)
    ensures rec.id.GetOr(0) in ImportantEvents ==> r == Some(ImportantEvents[rec.id.GetOr(0)])
    ensures rec.id.GetOr(0) !in ImportantEvents ==>
      r == ClassifyText(Text.LowerStr(rec.message.GetOr("")), Text.LowerStr(rec.provider.GetOr("")))
  {
    var id := rec.id.GetOr(0);
    if id in ImportantEvents then Some(ImportantEvents[id])
    else ClassifyText(Text.LowerStr(rec.message.GetOr("")), Text.LowerStr(rec.provider.GetOr("")))
  }

  /** "disconnect" contains "connect", yet a disconnect message is never classified as a
      connection: the disconnect keywords are tested first. */
  lemma DisconnectNeverConnect(rec: Record)
    requires rec.id.GetOr(0) !in ImportantEvents
    requires DisconnectWords(Text.LowerStr(rec.message.GetOr("")))
    ensures Classify(rec) != Some(WlanConnect)
  {
  }

  /** A record the classifier gives a type. */
  predicate Classifiable(rec: Record) { Classify(rec).Some? }

  /** A record on which `_classify_event` raises: lower-casing a `null` message always fails,
      and lower-casing a `null` provider fails once the event ID did not decide. The query's
      `except Exception` then returns the events gathered so far. */
  predicate Breaks(rec: Record) {
    rec.message.None? || (rec.provider.None? && rec.id.GetOr(0) !in ImportantEvents)
  }

  /** The event a classifiable record becomes. */
  function EventOf(rec: Record): Event
    requires Classifiable(rec) && !Breaks(rec)
  {
    Event(Classify(rec).value, rec.timestamp, rec.provider, rec.level, rec.message.value, rec.id)
  }

  /** The records the query gets through: those before the first one that breaks it. */
  function Intact(recs: seq<Record>): (r: seq<Record>)
    ensures r <= recs
    ensures forall k :: 0 <= k < |r| ==> !Breaks(r[k])
    ensures |r| < |recs| ==> Breaks(recs[|r|])
  {
    if |recs| == 0 || Breaks(recs[0]) then [] else [recs[0]] + Intact(recs[1..])
  }

  /** `_query_recent_events` over the parsed records: the classified records become events in
      their original order, unclassifiable records are dropped, and a record that breaks the
      classifier ends the query with the events before it. */
  function Query(recs: seq<Record>): (r: seq<Event>)
    ensures |r| <= |recs|
    ensures forall k :: 0 <= k < |r| ==> exists j :: 0 <= j < |recs| && Classify(recs[j]) == Some(r[k].kind)
    ensures (forall j :: 0 <= j < |recs| ==> Classify(recs[j]).None?) ==> r == []
    ensures recs != [] && Breaks(recs[0]) ==> r == []
  {
    if |recs| == 0 || Breaks(recs[0]) then []
    else
      var rest := Query(recs[1..]);
      assert forall k :: 0 <= k < |rest| ==> exists j :: 0 <= j < |recs| && Classify(recs[j]) == Some(rest[k].kind) by {
        forall k | 0 <= k < |rest| ensures exists j :: 0 <= j < |recs| && Classify(recs[j]) == Some(rest[k].kind) {
          var j :| 0 <= j < |recs[1..]| && Classify(recs[1..][j]) == Some(rest[k].kind);
          assert Classify(recs[j + 1]) == Some(rest[k].kind);
        }
      }
      if Classifiable(recs[0]) then [EventOf(recs[0])] + rest else rest
  }

  /** The records the query turns into events: the classifiable ones it gets through. */
  function Classified(recs: seq<Record>): (r: seq<Record>)
    ensures forall k :: 0 <= k < |r| ==> Classifiable(r[k]) && !Breaks(r[k])
  {
    var ok := Seqs.Filter(Intact(recs), Classifiable);
    assert forall k :: 0 <= k < |ok| ==> ok[k] in Intact(recs);
    ok
  }

  /** Every classifiable record before the first breaking one yields one event, and no other
      record yields one. */
  lemma {:induction false} QueryCountsClassifiable(recs: seq<Record>)
    ensures |Query(recs)| == |Classified(recs)|
  {
    if |recs| > 0 && !Breaks(recs[0]) {
      QueryCountsClassifiable(recs[1..]);
      assert Intact(recs) == [recs[0]] + Intact(recs[1..]);
      Seqs.FilterAppend([recs[0]], Intact(recs[1..]), Classifiable);
    }
  }

  /** The events of a query are the classified records' events, one for one and in record
      order. */
  lemma {:induction false} QueryIsClassifiedRecords(recs: seq<Record>)
    ensures |Query(recs)| == |Classified(recs)|
    ensures forall k :: 0 <= k < |Query(recs)| ==> Query(recs)[k] == EventOf(Classified(recs)[k])
  {
    QueryCountsClassifiable(recs);
    if |recs| > 0 && !Breaks(recs[0]) {
      QueryIsClassifiedRecords(recs[1..]);
      var kept := Classified(recs);
      var keptRest := Classified(recs[1..]);
      var r := Query(recs);
      var rest := Query(recs[1..]);
      assert Intact(recs) == [recs[0]] + Intact(recs[1..]);
      Seqs.FilterAppend([recs[0]], Intact(recs[1..]), Classifiable);
      assert kept == (if Classifiable(recs[0]) then [recs[0]] else []) + keptRest;
      if Classifiable(recs[0]) {
        assert r == [EventOf(recs[0])] + rest;
        forall k | 0 <= k < |r|
          ensures r[k] == EventOf(kept[k])
        {
          if k > 0 {
            assert r[k] == rest[k - 1] && kept[k] == keptRest[k - 1];
          }
        }
      } else {
        assert r == rest && kept == keptRest;
      }
    }
  }

  /** A record that breaks the classifier hides every record after it. */
  lemma {:induction false} QueryStopsAtBreak(recs: seq<Record>, i: nat)
    requires i < |recs| && Breaks(recs[i])
    ensures Query(recs) == Query(recs[..i])
  {
    if i > 0 {
      assert recs[1..][..i - 1] == recs[..i][1..];
      QueryStopsAtBreak(recs[1..], i - 1);
    }
  }

  /** `_check_new_events`: new events are appended and the list cut to the newest 1000. */
  function AddNew(events: seq<Event>, added: seq<Event>): (r: seq<Event>)
    ensures added == [] ==> r == events
    ensures added != [] ==> |r| <= MaxEvents
    ensures added != [] ==> r == Seqs.TakeLast(events + added, MaxEvents)
  {
    if added == [] then events else Seqs.TakeLast(events + added, MaxEvents)
  }

  /** A batch of at most 1000 new events survives the cut whole, as the newest entries. */
  lemma AddNewKeepsBatch(events: seq<Event>, added: seq<Event>)
    requires 0 < |added| <= MaxEvents
    ensures var r := AddNew(events, added);
      |r| >= |added| && r[|r| - |added|..] == added
  {
    var s := events + added;
    var r := AddNew(events, added);
    assert r == s[|s| - |r|..];
    assert r[|r| - |added|..] == s[|events|..];
    assert s[|events|..] == added;
  }

  /** `get_events`: events at or after `hours` before `now`, of the given type when one is given. */
  function GetEvents(events: seq<Event>, kind: Option<EventType>, hours: int, now: int): (r: seq<Event>)
    ensures forall k :: 0 <= k < |r| ==> r[k] in events && r[k].timestamp >= now - hours * 3600
    ensures forall k :: 0 <= k < |r| ==> kind.None? || r[k].kind == kind.value
    ensures forall k :: (0 <= k < |events| && events[k].timestamp >= now - hours * 3600
                         && (kind.None? || events[k].kind == kind.value)) ==> events[k] in r
  {
    var recent := Seqs.Filter(events, (e: Event) => e.timestamp >= now - hours * 3600);
    if kind.None? then recent else Seqs.Filter(recent, (e: Event) => e.kind == kind.value)
  }

  predicate DnsProblem(e: Event) { e.kind == DnsTimeout || e.kind == DnsFailure }

  /** `get_dns_timeout_count`: DNS timeouts and failures at or after `minutes` before `now`. */
  function DnsTimeoutCount(events: seq<Event>, minutes: int, now: int): (r: nat)
    ensures r <= |events|
    ensures r == |Seqs.Filter(events, (e: Event) => e.timestamp >= now - minutes * 60 && DnsProblem(e))|
    ensures (forall k :: 0 <= k < |events| ==> !DnsProblem(events[k])) ==> r == 0
  {
    var f := Seqs.Filter(events, (e: Event) => e.timestamp >= now - minutes * 60 && DnsProblem(e));
    assert |f| > 0 ==> f[0] in events && DnsProblem(f[0]);
    |f|
  }

  /** A wider window counts at least as many. */
  lemma {:induction false} DnsCountMonotone(events: seq<Event>, a: int, b: int, now: int)
    requires a <= b
    ensures DnsTimeoutCount(events, a, now) <= DnsTimeoutCount(events, b, now)
  {
    if |events| > 0 {
      DnsCountMonotone(events[1..], a, b, now);
    }
  }

  function KindCount(es: seq<Event>, t: EventType): nat {
    if |es| == 0 then 0 else (if es[0].kind == t then 1 else 0) + KindCount(es[1..], t)
  }

  const AllTypes: set<EventType> := {DnsTimeout, DnsFailure, WlanDisconnect, WlanConnect, WlanLimited,
                                     AdapterError, NcsiFailure, TcpReset, DhcpFailure}

  datatype Summary = Summary(totalLastHour: nat, byType: map<EventType, nat>, dnsTimeouts5Min: nat,
                             dnsTimeouts1Hour: nat, wlanIssues: nat)

  /** The summary of the last hour, computed with the event list held once. */
  function SummaryOf(events: seq<Event>, now: int): (r: Summary)
    ensures var recent := GetEvents(events, None, 1, now);
      r.totalLastHour == |recent|
      && (forall t :: t in r.byType <==> KindCount(recent, t) > 0)
      && (forall t :: t in r.byType ==> r.byType[t] == KindCount(recent, t))
      && r.dnsTimeouts5Min == DnsTimeoutCount(events, 5, now)
      && r.dnsTimeouts1Hour == KindCount(recent, DnsTimeout)
      && r.wlanIssues == KindCount(recent, WlanDisconnect) + KindCount(recent, WlanLimited)
  {
    var recent := GetEvents(events, None, 1, now);
    Summary(|recent|, map t | t in AllTypes && KindCount(recent, t) > 0 :: KindCount(recent, t),
            DnsTimeoutCount(events, 5, now), KindCount(recent, DnsTimeout),
            KindCount(recent, WlanDisconnect) + KindCount(recent, WlanLimited))
  }

  /** Acquiring the monitor's lock, which is not re-entrant: when it is already held the
      caller waits forever (`None`). */
  function Acquire(held: bool): (r: Option<bool>)
    ensures r.Some? <==> !held
  {
    if held then None else Some(true)
  }

  /** `get_dns_timeout_count` as written: it takes the lock first. */
  function DnsTimeoutCountLocked(events: seq<Event>, minutes: int, now: int, held: bool): (r: Option<nat>)
    ensures r.Some? <==> !held
    ensures r.Some? ==> r.value == DnsTimeoutCount(events, minutes, now)
  {
    match Acquire(held)
    case None => None
    case Some(_) => Some(DnsTimeoutCount(events, minutes, now))
  }

  /** `get_summary` as written: it takes the lock, then calls `get_dns_timeout_count`, which
      asks for the same lock again. */
  function SummaryAsWritten(events: seq<Event>, now: int, held: bool): Option<Summary> {
    match Acquire(held)
    case None => None
    case Some(h) =>
      match DnsTimeoutCountLocked(events, 5, now, h)
      case None => None
      case Some(_) => Some(SummaryOf(events, now))
  }

  /** The summary as written never returns, whatever the events and whoever holds the lock. */
  lemma SummaryAsWrittenNeverReturns(events: seq<Event>, now: int, held: bool)
    ensures SummaryAsWritten(events, now, held).None?
  {
  }
}
