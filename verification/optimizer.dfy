/** The optimizer that applies one network optimization at a time through PowerShell, netsh
    and the registry, keeps the results it produced and whether a reboot is needed, and
    summarizes them.

    The machine is a `Host`: its registry values by name, whether a registry write succeeds,
    and a shell that answers a command with its success and trimmed output. A failing or
    timed-out command and an exception both come out as a failed result, so they are one case
    here. */
module Optimizer {
  import opened Wrappers
  import Detection
  import Seqs
  import Text

  datatype Outcome = Success | Failed | AlreadySet | RequiresReboot

  /** The result of one optimization; the human-readable message is not modelled. */
  datatype ApplyResult = ApplyResult(optimization: string, result: Outcome, requiresReboot: bool)

  datatype Host = Host(reg: Detection.Registry, writable: bool, shell: string -> (bool, string))

  /** `_set_registry_dword`: the write happens exactly when the registry accepts it. */
  function WriteDword(host: Host, name: string, value: int): (r: (bool, Host))
    ensures r.0 == host.writable
    ensures r.0 ==> r.1 == host.(reg := host.reg[name := value])
    ensures !r.0 ==> r.1 == host
  {
    if host.writable then (true, host.(reg := host.reg[name := value])) else (false, host)
  }

  /** A result of an attempt that either succeeded or failed. */
  function Attempt(id: string, ok: bool, reboot: bool): (r: ApplyResult)
    ensures r.optimization == id
    ensures r.result == Success || r.result == Failed
    ensures r.result == Success <==> ok
    ensures r.requiresReboot <==> ok && reboot
  {
    if ok then ApplyResult(id, Success, reboot) else ApplyResult(id, Failed, false)
  }

  // Shell optimizations

  function CongestionCommand(enable: bool): string {
    "Set-NetTCPSetting -SettingName Internet -CongestionProvider " + (if enable then "ctcp" else "default")
  }

  function EcnCommand(enable: bool): string {
    "Set-NetTCPSetting -SettingName Internet -EcnCapability " + (if enable then "Enabled" else "Disabled")
  }

  const AdapterQuery: string :=
    "Get-NetAdapter | Where-Object " + [Text.OpenBrace] + "$_.Status -eq 'Up'" + [Text.CloseBrace]
    + " | Select-Object -First 1 -ExpandProperty Name"

  /** The RSS command, with the Python placeholder for `enable` giving `$True` or `$False`. */
  function RssCommand(adapter: string, enable: bool): string {
    "Set-NetAdapterRss -Name '" + adapter + "' -Enabled $" + (if enable then "True" else "False")
  }

  function ChimneyCommand(enable: bool): string {
    "netsh int tcp set global chimney=" + (if enable then "enabled" else "disabled")
  }

  function AutoTuningCommand(enable: bool): string {
    "netsh interface tcp set global autotuninglevel=" + (if enable then "normal" else "disabled")
  }

  /** `apply_rss`: the first adapter that is up, then RSS switched on it; no adapter name, or
      a failing query, fails without running the second command. */
  function ApplyRss(enable: bool, host: Host): (r: ApplyResult)
    ensures r.optimization == "rss" && !r.requiresReboot
    ensures r.result == Success <==>
      var (found, adapter) := host.shell(AdapterQuery);
      found && adapter != [] && host.shell(RssCommand(adapter, enable)).0
  {
    var (found, adapter) := host.shell(AdapterQuery);
    if !found || adapter == [] then Attempt("rss", false, false)
    else Attempt("rss", host.shell(RssCommand(adapter, enable)).0, false)
  }

  // Registry optimizations

  /** Python's `v | 1` or `v & ~1`: bit 0 set or cleared, every other bit kept. */
  function WithBit0(v: int, on: bool): (r: int)
    ensures Detection.Bit0(r) == on
    ensures Detection.Bit1(r) == Detection.Bit1(v) && r / 4 == v / 4
  {
    if on then (if Detection.Bit0(v) then v else v + 1)
    else (if Detection.Bit0(v) then v - 1 else v)
  }

  /** Python's `v | 2` or `v & ~2`: bit 1 set or cleared, every other bit kept. */
  function WithBit1(v: int, on: bool): (r: int)
    ensures Detection.Bit1(r) == on
    ensures Detection.Bit0(r) == Detection.Bit0(v) && r / 4 == v / 4
  {
    if on then (if Detection.Bit1(v) then v else v + 2)
    else (if Detection.Bit1(v) then v - 2 else v)
  }

  /** `_get_registry_dword(...) or 0`. */
  function ReadOrZero(reg: Detection.Registry, name: string): int {
    match Detection.Read(reg, name) case Some(v) => v case None => 0
  }

  /** `apply_window_scaling`: `Tcp1323Opts` overwritten with 1 or 0. */
  function ApplyWindowScaling(enable: bool, host: Host): (r: (ApplyResult, Host))
    ensures r.0 == Attempt("window_scaling", host.writable, true)
  {
    var (ok, after) := WriteDword(host, "Tcp1323Opts", if enable then 1 else 0);
    (Attempt("window_scaling", ok, true), after)
  }

  /** `apply_tcp_timestamps` as written: it toggles bit 0 of `Tcp1323Opts`, the bit the
      detector reads as window scaling. */
  function ApplyTimestampsAsWritten(enable: bool, host: Host): (r: (ApplyResult, Host))
    ensures r.0 == Attempt("tcp_timestamps", host.writable, true)
  {
    var (ok, after) := WriteDword(host, "Tcp1323Opts", WithBit0(ReadOrZero(host.reg, "Tcp1323Opts"), enable));
    (Attempt("tcp_timestamps", ok, true), after)
  }

  /** `apply_tcp_timestamps` toggling bit 1, the timestamps bit of `Tcp1323Opts`. */
  function ApplyTimestamps(enable: bool, host: Host): (r: (ApplyResult, Host))
    ensures r.0 == Attempt("tcp_timestamps", host.writable, true)
  {
    var (ok, after) := WriteDword(host, "Tcp1323Opts", WithBit1(ReadOrZero(host.reg, "Tcp1323Opts"), enable));
    (Attempt("tcp_timestamps", ok, true), after)
  }

  /** `apply_network_throttling`: the index set to 0xFFFFFFFF to switch throttling off, or to
      its default 10. */
  function ApplyThrottling(disable: bool, host: Host): (r: (ApplyResult, Host))
    ensures r.0 == Attempt("network_throttling", host.writable, true)
  {
    var (ok, after) := WriteDword(host, "NetworkThrottlingIndex", if disable then Detection.ThrottlingOff else 10);
    (Attempt("network_throttling", ok, true), after)
  }

  // Dispatch

  /** The keys `apply_optimization` knows. */
  const Known: seq<string> :=
    ["hystart", "ecn", "rss_enabled", "window_scaling", "timestamps", "chimney", "throttling_disabled", "auto_tuning"]

  /** The registry value a key writes, when it writes one. */
  function Writes(key: string): Option<string> {
    if key == "window_scaling" || key == "timestamps" then Some("Tcp1323Opts")
    else if key == "throttling_disabled" then Some("NetworkThrottlingIndex")
    else None
  }

  /** The keys whose success asks for a reboot. */
  predicate NeedsReboot(key: string) {
    key in ["window_scaling", "timestamps", "chimney", "throttling_disabled"]
  }

  /** The optimization a known key runs. Every run succeeds or fails; only a success can ask
      for a reboot, and only for the keys that need one; a failure leaves the machine alone,
      and a success changes at most the one registry value the key writes. */
  function Run(key: string, enable: bool, host: Host): (r: (ApplyResult, Host))
    requires key in Known
    ensures r.0.result == Success || r.0.result == Failed
    ensures r.0.requiresReboot <==> r.0.result == Success && NeedsReboot(key)
    ensures r.0.result == Failed ==> r.1 == host
    ensures r.1.writable == host.writable && r.1.shell == host.shell
    ensures Writes(key).None? ==> r.1 == host
    ensures Writes(key).Some? ==> r.1.reg.Keys <= host.reg.Keys + {Writes(key).value}
    ensures forall name :: name in host.reg && Writes(key) != Some(name) ==>
      name in r.1.reg && r.1.reg[name] == host.reg[name]
  {
    if Writes(key).Some? then RunRegistry(key, enable, host)
    else (RunShell(key, enable, host), host)
  }

  /** The known keys that only run commands. */
  function RunShell(key: string, enable: bool, host: Host): (r: ApplyResult)
    requires key in Known && Writes(key).None?
    ensures r.result == Success || r.result == Failed
    ensures r.requiresReboot <==> r.result == Success && key == "chimney"
  {
    if key == "hystart" then Attempt("tcp_congestion", host.shell(CongestionCommand(enable)).0, false)
    else if key == "ecn" then Attempt("ecn", host.shell(EcnCommand(enable)).0, false)
    else if key == "rss_enabled" then ApplyRss(enable, host)
    else if key == "chimney" then Attempt("chimney_offload", host.shell(ChimneyCommand(enable)).0, true)
    else Attempt("auto_tuning", host.shell(AutoTuningCommand(enable)).0, false)
  }

  /** The known keys that write a registry value: a success changes that value only, and asks
      for a reboot. */
  function RunRegistry(key: string, enable: bool, host: Host): (r: (ApplyResult, Host))
    requires Writes(key).Some?
    ensures r.0.result == Success || r.0.result == Failed
    ensures r.0.requiresReboot <==> r.0.result == Success
    ensures r.0.result == Failed ==> r.1 == host
    ensures r.0.result == Success ==> var name := Writes(key).value;
      name in r.1.reg && r.1 == host.(reg := host.reg[name := r.1.reg[name]])
  {
    if key == "window_scaling" then ApplyWindowScaling(enable, host)
    else if key == "timestamps" then ApplyTimestamps(enable, host)
    else ApplyThrottling(enable, host)
  }

  // Bookkeeping

  datatype Optimizer = Optimizer(results: seq<ApplyResult>, rebootRequired: bool)

  const Fresh: Optimizer := Optimizer([], false)

  /** What the bookkeeping keeps true: every kept result succeeded or failed, and a reboot is
      required exactly when one of them asked for it. */
  predicate Consistent(opt: Optimizer) {
    (forall k :: 0 <= k < |opt.results| ==> opt.results[k].result == Success || opt.results[k].result == Failed)
    && (opt.rebootRequired <==> exists k :: 0 <= k < |opt.results| && opt.results[k].requiresReboot)
  }

  /** `apply_optimization`: a known key runs and its result is kept, the reboot flag staying
      set once set; an unknown key fails without running anything or being kept. */
  function ApplyOptimization(opt: Optimizer, key: string, enable: bool, host: Host): (r: (ApplyResult, Optimizer, Host))
    ensures key in Known ==> r.1.results == opt.results + [r.0]
    ensures key in Known ==> (r.1.rebootRequired <==> opt.rebootRequired || r.0.requiresReboot)
    ensures key !in Known ==> r.0 == ApplyResult(key, Failed, false) && r.1 == opt && r.2 == host
  {
    if key in Known then
      var (res, after) := Run(key, enable, host);
      (res, Optimizer(opt.results + [res], opt.rebootRequired || res.requiresReboot), after)
    else (ApplyResult(key, Failed, false), opt, host)
  }

  lemma ApplyKeepsConsistent(opt: Optimizer, key: string, enable: bool, host: Host)
    requires Consistent(opt)
    ensures Consistent(ApplyOptimization(opt, key, enable, host).1)
  {
    if key in Known {
      var r := ApplyOptimization(opt, key, enable, host);
      var n := |opt.results|;
      if r.1.rebootRequired && !opt.rebootRequired {
        assert r.1.results[n].requiresReboot;
      }
      if opt.rebootRequired {
        var k :| 0 <= k < n && opt.results[k].requiresReboot;
        assert r.1.results[k] == opt.results[k];
      }
    }
  }

  /** `apply_batch`: the optimizations in the dictionary's order, each on the machine the
      previous one left, one result per key; the results of known keys are appended to the
      kept ones, and the unknown keys fail. */
  function ApplyBatch(opt: Optimizer, items: seq<(string, bool)>, host: Host): (r: (map<string, ApplyResult>, Optimizer, Host))
    requires Distinct(items)
    ensures r.0.Keys == set i | i in items :: i.0
    ensures opt.results <= r.1.results
    ensures |r.1.results| == |opt.results| + Seqs.Count(items, IsKnown)
    ensures forall i :: i in items && i.0 !in Known ==> r.0[i.0] == ApplyResult(i.0, Failed, false)
    decreases |items|
  {
    if items == [] then (map[], opt, host)
    else
      var (res, opt1, host1) := ApplyOptimization(opt, items[0].0, items[0].1, host);
      var (m, opt2, host2) := ApplyBatch(opt1, items[1..], host1);
      assert forall i :: i in items ==> i == items[0] || i in items[1..];
      assert items[0].0 !in m.Keys;
      (m[items[0].0 := res], opt2, host2)
  }

  /** The keys of a dictionary are distinct. */
  predicate Distinct(items: seq<(string, bool)>) {
    forall i, j :: 0 <= i < j < |items| ==> items[i].0 != items[j].0
  }

  predicate IsKnown(item: (string, bool)) { item.0 in Known }

  /** The result reported for a known key is one of the kept results. */
  lemma {:induction false} BatchKeepsKnown(opt: Optimizer, items: seq<(string, bool)>, host: Host, k: nat)
    requires Distinct(items) && k < |items| && items[k].0 in Known
    ensures var r := ApplyBatch(opt, items, host); r.0[items[k].0] in r.1.results
    decreases |items|
  {
    var (res, opt1, host1) := ApplyOptimization(opt, items[0].0, items[0].1, host);
    var r1 := ApplyBatch(opt1, items[1..], host1);
    if k == 0 {
      assert res == opt1.results[|opt1.results| - 1];
      assert res in r1.1.results;
    } else {
      assert items[1..][k - 1] == items[k];
      BatchKeepsKnown(opt1, items[1..], host1, k - 1);
    }
  }

  lemma {:induction false} BatchKeepsConsistent(opt: Optimizer, items: seq<(string, bool)>, host: Host)
    requires Distinct(items) && Consistent(opt)
    ensures Consistent(ApplyBatch(opt, items, host).1)
    decreases |items|
  {
    if items != [] {
      var (_, opt1, host1) := ApplyOptimization(opt, items[0].0, items[0].1, host);
      ApplyKeepsConsistent(opt, items[0].0, items[0].1, host);
      BatchKeepsConsistent(opt1, items[1..], host1);
    }
  }

  // Summary

  datatype Summary = Summary(total: nat, success: nat, failed: nat, rebootRequired: bool, results: seq<ApplyResult>)

  predicate Succeeded(r: ApplyResult) { r.result == Success }
  predicate FailedOne(r: ApplyResult) { r.result == Failed }

  /** `get_summary`. */
  function GetSummary(opt: Optimizer): (r: Summary)
    ensures r.total == |opt.results| && r.results == opt.results && r.rebootRequired == opt.rebootRequired
    ensures r.success == Seqs.Count(opt.results, Succeeded) && r.failed == Seqs.Count(opt.results, FailedOne)
    ensures r.success + r.failed <= r.total
  {
    SuccessFailedDisjoint(opt.results);
    Summary(|opt.results|, Seqs.Count(opt.results, Succeeded), Seqs.Count(opt.results, FailedOne),
            opt.rebootRequired, opt.results)
  }

  lemma {:induction false} SuccessFailedDisjoint(s: seq<ApplyResult>)
    ensures Seqs.Count(s, Succeeded) + Seqs.Count(s, FailedOne) <= |s|
  {
    if s != [] {
      SuccessFailedDisjoint(s[1..]);
    }
  }

  /** Every kept result is counted once: successes and failures add up to the total. */
  lemma {:induction false} SummaryAddsUp(opt: Optimizer)
    requires Consistent(opt)
    ensures GetSummary(opt).success + GetSummary(opt).failed == GetSummary(opt).total
  {
    SuccessOrFailedCount(opt.results);
  }

  lemma {:induction false} SuccessOrFailedCount(s: seq<ApplyResult>)
    requires forall k :: 0 <= k < |s| ==> s[k].result == Success || s[k].result == Failed
    ensures Seqs.Count(s, Succeeded) + Seqs.Count(s, FailedOne) == |s|
  {
    if s != [] {
      SuccessOrFailedCount(s[1..]);
    }
  }

  // What the detector reads back

  /** After window scaling is written, the registry reading of the detector agrees with the
      request, and timestamps read as off, since the whole value was overwritten. */
  lemma WindowScalingReadsBack(enable: bool, host: Host, netsh: string)
    requires host.writable
    requires Text.Field(netsh, "receive window auto-tuning level").None?
    ensures var after := ApplyWindowScaling(enable, host).1;
      Detection.WindowScalingFixed(netsh, after.reg).enabled == enable
      && !Detection.Timestamps(after.reg).enabled
  {
  }

  /** After the throttling index is written, the detector reads throttling as switched off
      exactly when that was asked. */
  lemma ThrottlingReadsBack(disable: bool, host: Host)
    requires host.writable
    ensures Detection.Throttling(ApplyThrottling(disable, host).1.reg).enabled == disable
  {
  }

  /** Toggling bit 1 switches timestamps as asked and leaves window scaling as it was. */
  lemma TimestampsReadBack(enable: bool, host: Host)
    requires host.writable
    ensures var after := ApplyTimestamps(enable, host).1;
      Detection.Timestamps(after.reg).enabled == enable
      && Detection.Bit0(after.reg["Tcp1323Opts"]) == Detection.Bit0(ReadOrZero(host.reg, "Tcp1323Opts"))
  {
  }

  /** As written, switching timestamps on when `Tcp1323Opts` is 0 leaves the detector reading
      timestamps as off and turns on the bit it reads as window scaling. */
  lemma TimestampsAsWrittenMissesBit(host: Host)
    requires host.writable && Detection.Read(host.reg, "Tcp1323Opts") == Some(0)
    ensures var after := ApplyTimestampsAsWritten(true, host).1;
      !Detection.Timestamps(after.reg).enabled && Detection.Bit0(after.reg["Tcp1323Opts"])
  {
  }
}
