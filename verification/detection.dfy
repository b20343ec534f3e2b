/** Which network optimizations are in effect, judged from the `netsh interface tcp show
    global` report and a handful of registry values, and the summary of that judgement. */
module Detection {
  import opened Wrappers
  import Text
  import Seqs

  /** The registry values the detector reads, by value name; a missing name is a value that
      could not be read. Each name lives under one fixed key, so the name identifies it. */
  type Registry = map<string, int>

  function Read(reg: Registry, name: string): Option<int> {
    if name in reg then Some(reg[name]) else None
  }

  /** What a state shows as its current or recommended value. */
  datatype Shown = Word(w: string) | Dword(v: Option<int>)

  datatype State = State(name: string, enabled: bool, current: Shown, recommended: Shown)

  /** The Network Throttling Index value that switches throttling off. */
  const ThrottlingOff: int := 0xFFFF_FFFF

  /** Python's `(v & 1) == 1` and `(v & 2) == 2` on any integer. */
  predicate Bit0(v: int) { v % 2 == 1 }
  predicate Bit1(v: int) { (v / 2) % 2 == 1 }

  function OnOff(b: bool): string { if b then "enabled" else "disabled" }

  /** A state whose `current` is the word "enabled" or "disabled". */
  function Switch(name: string, enabled: bool, recommended: string): (r: State)
    ensures r.enabled <==> r.current == Word("enabled")
  {
    State(name, enabled, Word(OnOff(enabled)), Word(recommended))
  }

  const CongestionProviders: seq<string> := ["ctcp", "cubic", "bbr"]

  /** The netsh provider when reported, else the registry flag; the state shows a provider
      that is one of ctcp, cubic and bbr exactly when it is enabled. */
  function Congestion(netsh: string, reg: Registry): (r: State)
    ensures r.current.Word? && (r.enabled <==> r.current.w in CongestionProviders)
    ensures Text.Field(netsh, "congestion provider").None? ==>
      (r.enabled <==> Read(reg, "TcpCongestionControl") == Some(1))
  {
    match Text.Field(netsh, "congestion provider")
    case Some(p) =>
      var provider := Text.LowerStr(p);
      State("TCP Congestion Control", provider in CongestionProviders, Word(provider), Word("ctcp"))
    case None =>
      var enabled := Read(reg, "TcpCongestionControl") == Some(1);
      State("TCP Congestion Control", enabled, Word(if enabled then "ctcp" else "compound"), Word("ctcp"))
  }

  /** Receive Side Scaling: the netsh state, else whether `RssBaseCpu` is set at all. */
  function Rss(netsh: string, reg: Registry): (r: State)
    ensures r.enabled <==> r.current == Word("enabled")
    ensures Text.Field(netsh, "receive-side scaling state").None? ==> (r.enabled <==> "RssBaseCpu" in reg)
  {
    var enabled := match Text.Field(netsh, "receive-side scaling state")
      case Some(st) => Text.LowerStr(st) == "enabled"
      case None => Read(reg, "RssBaseCpu").Some?;
    Switch("Receive Side Scaling", enabled, "enabled")
  }

  function Ecn(netsh: string, reg: Registry): (r: State)
    ensures r.enabled <==> r.current == Word("enabled")
    ensures Text.Field(netsh, "ecn capability").None? ==> (r.enabled <==> Read(reg, "EnableECN") == Some(1))
  {
    var enabled := match Text.Field(netsh, "ecn capability")
      case Some(c) => Text.LowerStr(c) == "enabled"
      case None => Read(reg, "EnableECN") == Some(1);
    Switch("ECN (Explicit Congestion Notification)", enabled, "enabled")
  }

  /** A registry flag that counts as enabled when it reads 1, or, when it cannot be read,
      as `absent`. The state shows the value read. */
  function Flag(name: string, reg: Registry, key: string, absent: bool): (r: State)
    ensures r.current == Dword(Read(reg, key))
    ensures r.enabled <==> (if key in reg then reg[key] == 1 else absent)
  {
    var v := Read(reg, key);
    State(name, if v.Some? then v.value == 1 else absent, Dword(v), Dword(Some(1)))
  }

  function FastOpen(reg: Registry): State { Flag("TCP Fast Open", reg, "TcpFastOpen", false) }

  /** SACK is on unless `SackOpts` reads something other than 1. */
  function Sack(reg: Registry): State { Flag("SACK (Selective ACK)", reg, "SackOpts", true) }

  /** `TcpNoDelay` = 1 means Nagle's algorithm is off, which is what counts as enabled. */
  function Nagle(reg: Registry): State { Flag("Nagle Algorithm (disabled)", reg, "TcpNoDelay", false) }

  function Dca(reg: Registry): State { Flag("DCA (Direct Cache Access)", reg, "EnableDynamicBacklog", false) }

  /** The auto-tuning levels read as window scaling being on. The two-word entry can never
      equal a captured `\w+` word. */
  const ScalingLevels: seq<string> := ["normal", "experimental", "highly restricted", "restricted"]

  /** Window scaling: the auto-tuning level when netsh reports one, else bit 0 of
      `Tcp1323Opts`, on by default. */
  function WindowScalingWith(levels: seq<string>, netsh: string, reg: Registry): (r: State)
    ensures r.enabled <==> r.current == Word("enabled")
    ensures var f := Text.Field(netsh, "receive window auto-tuning level");
      f.Some? ==> (r.enabled <==> Text.LowerStr(f.value) in levels)
    ensures Text.Field(netsh, "receive window auto-tuning level").None? ==>
      (r.enabled <==> ("Tcp1323Opts" !in reg || Bit0(reg["Tcp1323Opts"])))
  {
    var enabled := match Text.Field(netsh, "receive window auto-tuning level")
      case Some(level) => Text.LowerStr(level) in levels
      case None => match Read(reg, "Tcp1323Opts") case Some(v) => Bit0(v) case None => true;
    Switch("TCP Window Scaling", enabled, "enabled")
  }

  function WindowScaling(netsh: string, reg: Registry): State {
    WindowScalingWith(ScalingLevels, netsh, reg)
  }

  /** The auto-tuning levels netsh prints, each a single word. */
  const NetshLevels: seq<string> := ["normal", "experimental", "highlyrestricted", "restricted"]

  /** Window scaling judged against the levels netsh actually prints. */
  function WindowScalingFixed(netsh: string, reg: Registry): (r: State)
    ensures var f := Text.Field(netsh, "receive window auto-tuning level");
      f.Some? ==> (r.enabled <==> Text.LowerStr(f.value) in NetshLevels)
  {
    WindowScalingWith(NetshLevels, netsh, reg)
  }

  const AutoTuningKey: string := "receive window auto-tuning level"

  /** The level `(\w+)` captures is one word, so it is never the two-word "highly restricted"
      of the level list. */
  lemma CapturedLevelIsOneWord(netsh: string)
    ensures var f := Text.Field(netsh, AutoTuningKey);
      f.Some? ==> Text.LowerStr(f.value) != "highly restricted"
  {
    var f := Text.Field(netsh, AutoTuningKey);
    if f.Some? {
      LoweredWordNotTwoWords(f.value);
    }
  }

  lemma LoweredWordNotTwoWords(w: string)
    requires forall k :: 0 <= k < |w| ==> Text.IsWordChar(w[k])
    ensures Text.LowerStr(w) != "highly restricted"
  {
    var lowered := Text.LowerStr(w);
    assert forall k :: 0 <= k < |lowered| ==> lowered[k] != ' ';
    assert "highly restricted"[6] == ' ';
  }

  /** The report line of the "highly restricted" level, whatever the letter case of its label,
      reads as window scaling switched off, and as on against the netsh spelling. */
  lemma HighlyRestrictedReadsDisabled(shown: string, reg: Registry)
    requires Text.LowerStr(shown) == AutoTuningKey
    ensures !WindowScaling(shown + " : highlyrestricted", reg).enabled
    ensures WindowScalingFixed(shown + " : highlyrestricted", reg).enabled
  {
    HighlyRestrictedField(shown);
    LevelSpellings();
  }

  lemma HighlyRestrictedField(shown: string)
    requires Text.LowerStr(shown) == AutoTuningKey
    ensures Text.Field(shown + " : highlyrestricted", AutoTuningKey) == Some("highlyrestricted")
  {
    var w := "highlyrestricted";
    assert forall k :: 0 <= k < |w| ==> Text.IsWordChar(w[k]);
    assert shown + " : " + w == shown + " : highlyrestricted";
    Text.FieldOfLastLine(shown, AutoTuningKey, w);
  }

  lemma LevelSpellings()
    ensures Text.LowerStr("highlyrestricted") == "highlyrestricted"
    ensures "highlyrestricted" !in ScalingLevels && "highlyrestricted" in NetshLevels
  {
    assert |"highlyrestricted"| == 16;
    assert "highlyrestricted" == NetshLevels[2];
  }


  /** Timestamps: bit 1 of `Tcp1323Opts`, on by default. */
  function Timestamps(reg: Registry): (r: State)
    ensures r.current == Dword(Read(reg, "Tcp1323Opts"))
    ensures r.enabled <==> ("Tcp1323Opts" !in reg || Bit1(reg["Tcp1323Opts"]))
  {
    var v := Read(reg, "Tcp1323Opts");
    State("TCP Timestamps", if v.Some? then Bit1(v.value) else true, Dword(v), Dword(Some(3)))
  }

  function Chimney(netsh: string, reg: Registry): (r: State)
    ensures r.enabled <==> r.current == Word("enabled")
    ensures Text.Field(netsh, "chimney offload state").None? ==>
      (r.enabled <==> Read(reg, "EnableTCPChimney") == Some(1))
  {
    var enabled := match Text.Field(netsh, "chimney offload state")
      case Some(st) => Text.LowerStr(st) == "enabled"
      case None => Read(reg, "EnableTCPChimney") == Some(1);
    Switch("TCP Chimney Offload", enabled, "disabled")
  }

  /** Throttling counts as "enabled" (that is, switched off) only at 0xFFFFFFFF. */
  function Throttling(reg: Registry): (r: State)
    ensures r.current == Dword(Read(reg, "NetworkThrottlingIndex"))
    ensures r.enabled <==> r.current == Dword(Some(ThrottlingOff))
  {
    var v := Read(reg, "NetworkThrottlingIndex");
    State("Network Throttling (disabled)", v == Some(ThrottlingOff), Dword(v), Dword(Some(ThrottlingOff)))
  }

  /** Task offload: the netsh state, on when netsh does not report it. */
  function TaskOffload(netsh: string): (r: State)
    ensures r.enabled <==> r.current == Word("enabled")
    ensures Text.Field(netsh, "task offload").None? ==> r.enabled
  {
    var enabled := match Text.Field(netsh, "task offload")
      case Some(st) => Text.LowerStr(st) == "enabled"
      case None => true;
    Switch("Task Offload (TSO/GSO)", enabled, "enabled")
  }

  /** Auto-tuning: on at the normal or experimental level, and assumed normal when netsh
      does not report a level. */
  function AutoTuning(netsh: string): (r: State)
    ensures r.current.Word? && (r.enabled <==> r.current.w in ["normal", "experimental"])
  {
    match Text.Field(netsh, "receive window auto-tuning level")
    case Some(l) =>
      var level := Text.LowerStr(l);
      State("Auto-Tuning Level", level in ["normal", "experimental"], Word(level), Word("normal"))
    case None => State("Auto-Tuning Level", true, Word("normal"), Word("normal"))
  }

  /** The ids `detect_all` fills, in order. */
  const Ids: seq<string> := ["tcp_congestion", "rss", "ecn", "tcp_fast_open", "window_scaling",
                             "timestamps", "sack", "chimney_offload", "network_throttling",
                             "task_offload", "nagle", "auto_tuning", "dca"]

  /** `detect_all`: one state per id, in the order of `Ids`. */
  function DetectAll(netsh: string, reg: Registry): (r: seq<(string, State)>)
    ensures |r| == |Ids| && forall k :: 0 <= k < |r| ==> r[k].0 == Ids[k]
  {
    IdsCount();
    Labelled(Ids, Detectors(netsh, reg))
  }

  lemma IdsCount()
    ensures |Ids| == 13
  {
  }

  /** One reading per detector, in the order of `Ids`. */
  function Detectors(netsh: string, reg: Registry): (r: seq<State>)
    ensures |r| == 13
  {
    [Congestion(netsh, reg), Rss(netsh, reg), Ecn(netsh, reg), FastOpen(reg),
     WindowScalingFixed(netsh, reg), Timestamps(reg), Sack(reg), Chimney(netsh, reg),
     Throttling(reg), TaskOffload(netsh), Nagle(reg), AutoTuning(netsh), Dca(reg)]
  }

  /** The states labelled with their ids; the labels are all the caller needs to know. */
  function Labelled(ids: seq<string>, states: seq<State>): (r: seq<(string, State)>)
    requires |ids| == |states|
    ensures |r| == |ids| && forall k :: 0 <= k < |r| ==> r[k].0 == ids[k]
  {
    Pair(ids, states)
  }

  function Pair(ids: seq<string>, states: seq<State>): (r: seq<(string, State)>)
    requires |ids| == |states|
    ensures |r| == |ids| && forall k :: 0 <= k < |r| ==> r[k] == (ids[k], states[k])
  {
    seq(|ids|, k requires 0 <= k < |ids| => (ids[k], states[k]))
  }

  /** With nothing readable, exactly the optimizations that default to on count as enabled. */
  lemma NothingReadable()
    ensures var r := DetectAll("", map[]);
      forall k :: 0 <= k < |r| ==>
        (r[k].1.enabled <==> r[k].0 in ["window_scaling", "timestamps", "sack", "task_offload", "auto_tuning"])
  {
    FieldOfEmpty("congestion provider");
    FieldOfEmpty("receive-side scaling state");
    FieldOfEmpty("ecn capability");
    FieldOfEmpty("receive window auto-tuning level");
    FieldOfEmpty("chimney offload state");
    FieldOfEmpty("task offload");
  }

  lemma FieldOfEmpty(key: string)
    requires key != []
    ensures Text.Field("", key).None?
  {
    assert Text.FirstHit(1, 0, (i: nat) => Text.FieldAt("", key, i)) == None;
  }

  /** `get_optimization_state`. */
  function StateOf(states: seq<(string, State)>, id: string): (r: Option<State>)
    ensures r.None? <==> forall k :: 0 <= k < |states| ==> states[k].0 != id
    ensures r.Some? ==> (id, r.value) in states
  {
    if states == [] then None
    else if states[0].0 == id then Some(states[0].1)
    else StateOf(states[1..], id)
  }

  function EnabledOnes(states: seq<(string, State)>): (r: seq<(string, State)>)
    ensures forall k :: 0 <= k < |r| ==> r[k] in states && r[k].1.enabled
    ensures forall k :: 0 <= k < |states| && states[k].1.enabled ==> states[k] in r
  {
    Seqs.Filter(states, (e: (string, State)) => e.1.enabled)
  }

  function DisabledOnes(states: seq<(string, State)>): (r: seq<(string, State)>)
    ensures forall k :: 0 <= k < |r| ==> r[k] in states && !r[k].1.enabled
    ensures forall k :: 0 <= k < |states| && !states[k].1.enabled ==> states[k] in r
  {
    Seqs.Filter(states, (e: (string, State)) => !e.1.enabled)
  }

  /** The enabled and the disabled states split the detected ones: every state is in exactly
      one of them, and their sizes add up. */
  lemma EnabledDisabledPartition(states: seq<(string, State)>)
    ensures |EnabledOnes(states)| + |DisabledOnes(states)| == |states|
    ensures forall e :: e in states ==> (e in EnabledOnes(states) <==> e !in DisabledOnes(states))
  {
    Seqs.CountComplement(states, (e: (string, State)) => e.1.enabled, (e: (string, State)) => !e.1.enabled);
  }

  datatype Summary = Summary(total: nat, enabled: nat, disabled: int, percentage: nat)

  /** `get_summary`: the percentage is the enabled share rounded down, 0 when nothing was
      detected. */
  function GetSummary(states: seq<(string, State)>): (r: Summary)
    ensures r.total == |states| && r.enabled == |EnabledOnes(states)|
    ensures r.enabled + r.disabled == r.total && r.disabled >= 0
    ensures r.total == 0 ==> r.percentage == 0
    ensures r.total > 0 ==> r.percentage * r.total <= r.enabled * 100 < (r.percentage + 1) * r.total
    ensures r.percentage <= 100
  {
    var total := |states|;
    var enabled := |EnabledOnes(states)|;
    EnabledDisabledPartition(states);
    Summary(total, enabled, total - enabled, Percentage(enabled, total))
  }

  /** `int(enabled / total * 100)`, or 0 when the total is 0: the share rounded down. */
  function Percentage(enabled: nat, total: nat): (p: nat)
    requires enabled <= total
    ensures total == 0 ==> p == 0
    ensures total > 0 ==> p * total <= enabled * 100 < (p + 1) * total
    ensures p <= 100
  {
    if total == 0 then 0
    else
      var q := enabled * 100 / total;
      FloorBounds(enabled * 100, total);
      AtMostHundred(q, total, enabled);
      q
  }

  /** Euclidean division brackets the dividend between two multiples of the divisor. */
  lemma FloorBounds(a: nat, b: nat)
    requires b > 0
    ensures (a / b) * b <= a < (a / b + 1) * b
  {
    assert a == (a / b) * b + a % b;
  }

  lemma AtMostHundred(q: nat, total: nat, enabled: nat)
    requires total > 0 && enabled <= total && q * total <= enabled * 100
    ensures q <= 100
  {
  }
}
