/** The global stores of the desktop front end: the averages over the last minute of
    metrics, the toast list, the settings with their defaults, and the monitoring uptime
    with its clock text.

    The one-second timer and the toast timeout are steps the caller takes (`Tick`,
    `Remove`); ids from the random source are parameters. */
module AppStores {
  import opened Wrappers
  import Seqs
  import Text

  // Metrics

  datatype Snapshot = Snapshot(download: real, upload: real, latency: real, errors: real, drops: real)

  datatype Averages = Averages(avgDownload: real, avgUpload: real, avgLatency: real,
                               peakDownload: real, peakUpload: real, totalErrors: real, totalDrops: real)

  const Window: nat := 60

  function Downloads(w: seq<Snapshot>): (r: seq<real>)
    ensures |r| == |w| && forall k :: 0 <= k < |w| ==> r[k] == w[k].download
  {
    seq(|w|, k requires 0 <= k < |w| => w[k].download)
  }

  function Uploads(w: seq<Snapshot>): (r: seq<real>)
    ensures |r| == |w| && forall k :: 0 <= k < |w| ==> r[k] == w[k].upload
  {
    seq(|w|, k requires 0 <= k < |w| => w[k].upload)
  }

  function Latencies(w: seq<Snapshot>): (r: seq<real>)
    ensures |r| == |w| && forall k :: 0 <= k < |w| ==> r[k] == w[k].latency
  {
    seq(|w|, k requires 0 <= k < |w| => w[k].latency)
  }

  function Errors(w: seq<Snapshot>): (r: seq<real>)
    ensures |r| == |w| && forall k :: 0 <= k < |w| ==> r[k] == w[k].errors
  {
    seq(|w|, k requires 0 <= k < |w| => w[k].errors)
  }

  function Drops(w: seq<Snapshot>): (r: seq<real>)
    ensures |r| == |w| && forall k :: 0 <= k < |w| ==> r[k] == w[k].drops
  {
    seq(|w|, k requires 0 <= k < |w| => w[k].drops)
  }

  /** `averageMetrics`: nothing for an empty history, else the means, peaks and totals over
      its last 60 snapshots. */
  function AverageMetrics(history: seq<Snapshot>): (r: Option<Averages>)
    ensures r.None? <==> history == []
    ensures r.Some? ==> var w := Seqs.TakeLast(history, Window);
      r.value.totalErrors == Seqs.Sum(Errors(w)) && r.value.totalDrops == Seqs.Sum(Drops(w))
      && r.value.avgDownload <= r.value.peakDownload && r.value.avgUpload <= r.value.peakUpload
      && (forall k :: 0 <= k < |w| ==> w[k].download <= r.value.peakDownload && w[k].upload <= r.value.peakUpload)
      && r.value.peakDownload in Downloads(w) && r.value.peakUpload in Uploads(w)
    ensures r.Some? ==> var w := Seqs.TakeLast(history, Window);
      r.value.avgDownload == Seqs.Sum(Downloads(w)) / |w| as real
      && r.value.avgUpload == Seqs.Sum(Uploads(w)) / |w| as real
      && r.value.avgLatency == Seqs.Sum(Latencies(w)) / |w| as real
  {
    if history == [] then None
    else
      var w := Seqs.TakeLast(history, Window);
      Seqs.MeanAtMostMax(Downloads(w));
      Seqs.MeanAtMostMax(Uploads(w));
      Some(Averages(Seqs.Mean(Downloads(w)), Seqs.Mean(Uploads(w)), Seqs.Mean(Latencies(w)),
                    Seqs.MaxOr(Downloads(w), 0.0), Seqs.MaxOr(Uploads(w), 0.0),
                    Seqs.Sum(Errors(w)), Seqs.Sum(Drops(w))))
  }

  /** Snapshots older than the last 60 do not change the averages. */
  lemma OlderSnapshotsIgnored(older: seq<Snapshot>, recent: seq<Snapshot>)
    requires |recent| >= Window
    ensures AverageMetrics(older + recent) == AverageMetrics(recent)
  {
    var h := older + recent;
    assert Seqs.TakeLast(h, Window) == Seqs.TakeLast(recent, Window) by {
      assert h[|h| - Window..] == recent[|recent| - Window..];
    }
  }

  // Toasts

  datatype ToastType = Success | Error | Warning | Info

  datatype Toast = Toast(id: string, message: string, kind: ToastType, duration: Option<int>)

  /** No two toasts share an id. */
  predicate DistinctIds(toasts: seq<Toast>) {
    forall i, j :: 0 <= i < j < |toasts| ==> toasts[i].id != toasts[j].id
  }

  /** `toasts.add`: the earlier toasts stay in place and the new one comes last, under the
      id that is returned; a fresh id keeps the ids distinct. */
  function AddToast(toasts: seq<Toast>, message: string, kind: ToastType, duration: Option<int>, uuid: string): (r: (seq<Toast>, string))
    ensures r.1 == uuid
    ensures |r.0| == |toasts| + 1 && r.0[..|toasts|] == toasts
    ensures r.0[|toasts|].id == r.1 && r.0[|toasts|].message == message && r.0[|toasts|].kind == kind
    ensures DistinctIds(toasts) && (forall k :: 0 <= k < |toasts| ==> toasts[k].id != uuid) ==> DistinctIds(r.0)
  {
    (toasts + [Toast(uuid, message, kind, duration)], uuid)
  }

  /** How long a toast stays: its duration, or 3 seconds when it has none or 0. */
  function AutoRemoveDelay(duration: Option<int>): (ms: int)
    ensures ms != 0
    ensures duration.Some? && duration.value != 0 ==> ms == duration.value
  {
    if duration.None? || duration.value == 0 then 3000 else duration.value
  }

  /** `toasts.remove`, and the timeout that removes a toast once its delay is over. */
  function RemoveToast(toasts: seq<Toast>, id: string): (r: seq<Toast>)
    ensures forall k :: 0 <= k < |r| ==> r[k].id != id && r[k] in toasts
    ensures forall k :: 0 <= k < |toasts| && toasts[k].id != id ==> toasts[k] in r
  {
    Seqs.Filter(toasts, (t: Toast) => t.id != id)
  }

  /** Removing a toast just added under a new id gives back the list it was added to. */
  lemma RemoveUndoesAddToast(toasts: seq<Toast>, message: string, kind: ToastType, duration: Option<int>, uuid: string)
    requires forall k :: 0 <= k < |toasts| ==> toasts[k].id != uuid
    ensures RemoveToast(AddToast(toasts, message, kind, duration, uuid).0, uuid) == toasts
  {
    var p := (t: Toast) => t.id != uuid;
    Seqs.FilterAppend(toasts, [Toast(uuid, message, kind, duration)], p);
    KeepsAll(toasts, p);
  }

  lemma {:induction false} KeepsAll<T>(s: seq<T>, p: T -> bool)
    requires forall k :: 0 <= k < |s| ==> p(s[k])
    ensures Seqs.Filter(s, p) == s
  {
    if s != [] {
      KeepsAll(s[1..], p);
    }
  }

  // Settings

  datatype ThemeChoice = Dark | Light | System
  datatype Language = Es | En

  datatype Settings = Settings(theme: ThemeChoice, language: Language, minimizeToTray: bool,
                               startWithWindows: bool, showNotifications: bool, monitoringInterval: int,
                               autoFailover: bool, soundAlerts: bool)

  /** A partial update: the fields it names. */
  datatype Patch = Patch(theme: Option<ThemeChoice>, language: Option<Language>, minimizeToTray: Option<bool>,
                         startWithWindows: Option<bool>, showNotifications: Option<bool>,
                         monitoringInterval: Option<int>, autoFailover: Option<bool>, soundAlerts: Option<bool>)

  const Defaults: Settings := Settings(Dark, Es, true, false, true, 1, false, true)

  const NoChange: Patch := Patch(None, None, None, None, None, None, None, None)

  /** `settings.reset`. */
  function ResetSettings(): (s: Settings)
    ensures s.theme == Dark && s.language == Es && s.monitoringInterval == 1
    ensures s.minimizeToTray && !s.startWithWindows && s.showNotifications && !s.autoFailover && s.soundAlerts
  {
    Defaults
  }

  /** `settings.load`: every field the patch names is taken from it, the others kept. */
  function LoadSettings(s: Settings, p: Patch): (r: Settings)
    ensures r.theme == p.theme.GetOr(s.theme) && r.language == p.language.GetOr(s.language)
    ensures r.minimizeToTray == p.minimizeToTray.GetOr(s.minimizeToTray)
    ensures r.startWithWindows == p.startWithWindows.GetOr(s.startWithWindows)
    ensures r.showNotifications == p.showNotifications.GetOr(s.showNotifications)
    ensures r.monitoringInterval == p.monitoringInterval.GetOr(s.monitoringInterval)
    ensures r.autoFailover == p.autoFailover.GetOr(s.autoFailover)
    ensures r.soundAlerts == p.soundAlerts.GetOr(s.soundAlerts)
  {
    Settings(p.theme.GetOr(s.theme), p.language.GetOr(s.language), p.minimizeToTray.GetOr(s.minimizeToTray),
             p.startWithWindows.GetOr(s.startWithWindows), p.showNotifications.GetOr(s.showNotifications),
             p.monitoringInterval.GetOr(s.monitoringInterval), p.autoFailover.GetOr(s.autoFailover),
             p.soundAlerts.GetOr(s.soundAlerts))
  }

  /** The patch naming every field of `s`. */
  function Full(s: Settings): Patch {
    Patch(Some(s.theme), Some(s.language), Some(s.minimizeToTray), Some(s.startWithWindows),
          Some(s.showNotifications), Some(s.monitoringInterval), Some(s.autoFailover), Some(s.soundAlerts))
  }

  /** Loading nothing changes nothing, loading twice is loading once, and loading every
      field of saved settings restores them whatever came before. */
  lemma LoadSettingsLaws(s: Settings, p: Patch, saved: Settings)
    ensures LoadSettings(s, NoChange) == s
    ensures LoadSettings(LoadSettings(s, p), p) == LoadSettings(s, p)
    ensures LoadSettings(s, Full(saved)) == saved
  {
  }

  // Uptime

  /** Whether monitoring is on, whether the one-second timer runs, and the uptime. */
  datatype Monitor = Monitor(active: bool, timer: bool, uptime: nat)

  const Stopped: Monitor := Monitor(false, false, 0)

  /** The timer runs exactly while monitoring is on, and without it the uptime is 0. */
  predicate Valid(m: Monitor) {
    m.timer == m.active && (!m.timer ==> m.uptime == 0)
  }

  /** Setting `monitoringActive`: switching on starts the timer if none runs, switching off
      stops a running one and resets the uptime to 0. */
  function SetActive(m: Monitor, active: bool): (r: Monitor)
    ensures r.active == active
    ensures active && !m.timer ==> r.timer && r.uptime == m.uptime
    ensures !active && m.timer ==> !r.timer && r.uptime == 0
    ensures active == m.timer ==> r.timer == m.timer && r.uptime == m.uptime
  {
    if active && !m.timer then Monitor(true, true, m.uptime)
    else if !active && m.timer then Monitor(false, false, 0)
    else m.(active := active)
  }

  /** One second of the timer. */
  function Tick(m: Monitor): (r: Monitor)
    ensures r.active == m.active && r.timer == m.timer
    ensures r.uptime == if m.timer then m.uptime + 1 else m.uptime
  {
    if m.timer then m.(uptime := m.uptime + 1) else m
  }

  /** Starting from the stopped state, the timer follows the switch, monitoring always
      counts from 0, and switching it off leaves an uptime of 0. */
  lemma UptimeLaws(m: Monitor, active: bool)
    requires Valid(m)
    ensures Valid(Stopped) && Valid(SetActive(m, active)) && Valid(Tick(m))
    ensures !active ==> SetActive(m, active).uptime == 0
    ensures !m.active && active ==> SetActive(m, active).uptime == 0
  {
  }

  /** `n` in at least two digits, as `toString().padStart(2, '0')`. */
  function TwoDigits(n: nat): (r: string)
    ensures Text.AllDigits(r) && |r| >= 2
    ensures n < 100 ==> |r| == 2
  {
    var s := Text.NatToString(n);
    assert n < 10 ==> |s| == 1;
    assert 10 <= n < 100 ==> |Text.NatToString(n / 10)| == 1;
    if |s| >= 2 then s else ['0'] + s
  }

  lemma TwoDigitsRoundTrip(n: nat)
    ensures Text.NatOf(TwoDigits(n)) == n
  {
    var s := Text.NatToString(n);
    Text.NatToStringRoundTrip(n);
    if |s| < 2 {
      var r := ['0'] + s;
      assert r[..1] == ['0'] && r[..|r| - 1][..0] == [];
      assert s == [s[0]];
      assert Text.NatOf(s) == s[0] as int - '0' as int;
    }
  }

  /** `formattedUptime`: hours, minutes and seconds, each in at least two digits. */
  function FormattedUptime(n: nat): (r: string)
    ensures |r| >= 8 && r[|r| - 3] == ':' && r[|r| - 6] == ':'
    ensures n < 360000 ==> |r| == 8
  {
    TwoDigits(n / 3600) + ":" + TwoDigits((n % 3600) / 60) + ":" + TwoDigits(n % 60)
  }

  /** Reading the clock text back gives the uptime, with minutes and seconds below 60. */
  lemma FormattedUptimeRoundTrip(n: nat)
    ensures var r := FormattedUptime(n);
            Text.AllDigits(r[..|r| - 6]) && Text.AllDigits(r[|r| - 5..|r| - 3]) && Text.AllDigits(r[|r| - 2..])
            && Text.NatOf(r[|r| - 5..|r| - 3]) < 60 && Text.NatOf(r[|r| - 2..]) < 60
            && Text.NatOf(r[..|r| - 6]) * 3600 + Text.NatOf(r[|r| - 5..|r| - 3]) * 60 + Text.NatOf(r[|r| - 2..]) == n
  {
    var a, b, c := n / 3600, (n % 3600) / 60, n % 60;
    ClockArithmetic(n);
    ClockParts(TwoDigits(a), TwoDigits(b), TwoDigits(c));
    TwoDigitsRoundTrip(a);
    TwoDigitsRoundTrip(b);
    TwoDigitsRoundTrip(c);
  }

  lemma ClockArithmetic(n: nat)
    ensures (n % 3600) / 60 < 60 && n % 60 < 60
    ensures (n / 3600) * 3600 + ((n % 3600) / 60) * 60 + n % 60 == n
  {
    assert n % 3600 == ((n % 3600) / 60) * 60 + (n % 3600) % 60;
    assert (n % 3600) % 60 == n % 60;
  }

  lemma ClockParts(h: string, m: string, s: string)
    requires |m| == 2 && |s| == 2
    ensures var r := h + ":" + m + ":" + s;
            |r| >= 6 && r[..|r| - 6] == h && r[|r| - 5..|r| - 3] == m && r[|r| - 2..] == s
  {
  }
}
