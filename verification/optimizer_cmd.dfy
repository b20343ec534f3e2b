/** The optimizer commands of the desktop application's back end: reading the TCP settings
    from the `netsh int tcp show global` report, applying one of three fixed profiles, and
    resetting to the defaults.

    Each profile is a list of steps run in order; the first step that fails stops the command
    with its error, and nothing of what was applied before is reported. Whether a `netsh` or
    `reg add` step succeeds is the `ok` parameter; a `reg delete` step succeeds whatever
    happens, since its outcome is ignored. */
module OptimizerCmd {
  import opened Wrappers
  import Text

  // Reading the settings

  /** Rust's `line.split(':').nth(1)`: the text between the first and the second colon, or
      after the first when there is only one. */
  function SecondPiece(line: string): (r: Option<string>)
    ensures r.None? <==> forall k :: 0 <= k < |line| ==> line[k] != ':'
    ensures r.Some? ==> forall k :: 0 <= k < |r.value| ==> r.value[k] != ':'
  {
    var pieces := Text.Split(line, ':');
    SplitHasSecond(line);
    if |pieces| >= 2 then Some(pieces[1]) else None
  }

  /** A line splits into more than one piece exactly when it holds a colon. */
  lemma SplitHasSecond(line: string)
    ensures |Text.Split(line, ':')| >= 2 <==> exists k :: 0 <= k < |line| && line[k] == ':'
  {
    var pieces := Text.Split(line, ':');
    if forall k :: 0 <= k < |line| ==> line[k] != ':' {
      Text.SplitWithout(line, ':');
    } else if |pieces| == 1 {
      Text.SplitJoin(line, ':');
      assert Text.Join(pieces, [':']) == pieces[0];
    }
  }

  /** The line `extract_value` takes its value from. */
  predicate Hit(line: string, key: string) {
    Text.Contains(line, key) && SecondPiece(line).Some?
  }

  /** Line `k` is the first line the value can come from. */
  predicate FirstHit(lines: seq<string>, key: string, k: nat)
    requires k < |lines|
  {
    Hit(lines[k], key) && forall j :: 0 <= j < k ==> !Hit(lines[j], key)
  }

  /** The loop of `extract_value`: the trimmed second piece of the first line that contains
      the key and a colon, or "unknown" when no line does. */
  function ExtractFrom(lines: seq<string>, key: string): (r: string)
    ensures (forall k :: 0 <= k < |lines| ==> !Hit(lines[k], key)) ==> r == "unknown"
    ensures forall k :: 0 <= k < |lines| && FirstHit(lines, key, k) ==> r == Text.Trim(SecondPiece(lines[k]).value)
  {
    if lines == [] then "unknown"
    else if Hit(lines[0], key) then Text.Trim(SecondPiece(lines[0]).value)
    else
      var r := ExtractFrom(lines[1..], key);
      assert forall k :: 1 <= k < |lines| && FirstHit(lines, key, k) ==> FirstHit(lines[1..], key, k - 1) by {
        assert forall k :: 1 <= k < |lines| ==> lines[1..][k - 1] == lines[k];
      }
      r
  }

  /** `extract_value` on the whole report. A line keeps its `\r` here, which Rust's `lines`
      drops; the value is trimmed either way, and the key never holds one. */
  function ExtractValue(text: string, key: string): string {
    ExtractFrom(Text.Split(text, '\n'), key)
  }

  /** A one-line report `key : value` yields the value. */
  lemma ExtractsReportLine(key: string, value: string)
    requires forall k :: 0 <= k < |key| ==> key[k] != ':' && key[k] != '\n'
    requires forall k :: 0 <= k < |value| ==> value[k] != ':' && value[k] != '\n'
    requires value == [] || (!Text.IsSpace(value[0]) && !Text.IsSpace(value[|value| - 1]))
    ensures ExtractValue(key + " : " + value, key) == value
  {
    var line := key + " : " + value;
    assert forall k :: 0 <= k < |line| ==> line[k] != '\n' by {
      forall k | 0 <= k < |line| ensures line[k] != '\n' {
        if k < |key| { assert line[k] == key[k]; }
        else if k >= |key| + 3 { assert line[k] == value[k - |key| - 3]; }
      }
    }
    Text.SplitWithout(line, '\n');
    SecondPieceOfLine(key, value);
    assert Text.At(line, 0, key);
    Text.ContainsWitness(line, key, 0);
    TrimAfterSpace(value);
  }

  lemma SecondPieceOfLine(key: string, value: string)
    requires forall k :: 0 <= k < |key| ==> key[k] != ':'
    requires forall k :: 0 <= k < |value| ==> value[k] != ':'
    ensures SecondPiece(key + " : " + value) == Some(" " + value)
  {
    var parts := [key + " ", " " + value];
    assert Text.Join(parts, [':']) == key + " : " + value by {
      assert Text.Join(parts, [':']) == Text.Join([key + " "], [':']) + [':'] + (" " + value);
    }
    Text.JoinSplit(parts, ':');
  }

  lemma TrimAfterSpace(value: string)
    requires value == [] || (!Text.IsSpace(value[0]) && !Text.IsSpace(value[|value| - 1]))
    ensures Text.Trim(" " + value) == value
  {
    var s := " " + value;
    assert Text.SkipSpaces(s, 0) == Text.SkipSpaces(s, 1);
    assert Text.SkipSpaces(s, 1) == 1;
    assert s[1..] == value;
  }

  // Steps

  datatype Step =
    | Netsh(args: string, note: string)
    | SetDword(name: string, value: nat, note: string)
    | DeleteValue(name: string, note: string)

  /** The error a failing step stops the command with. */
  function ErrorOf(step: Step): string {
    match step
    case Netsh(args, _) => "netsh " + args + " failed"
    case SetDword(name, _, _) => "Failed to set registry " + name
    case DeleteValue(name, _) => ""
  }

  /** Whether a step succeeds: a delete always does. */
  predicate Succeeds(step: Step, ok: Step -> bool) {
    step.DeleteValue? || ok(step)
  }

  function Labels(steps: seq<Step>): (r: seq<string>)
    ensures |r| == |steps| && forall k :: 0 <= k < |r| ==> r[k] == steps[k].note
  {
    seq(|steps|, k requires 0 <= k < |steps| => steps[k].note)
  }

  /** Position of the first step that fails, or the number of steps when none does. */
  function FirstFailure(steps: seq<Step>, ok: Step -> bool): (k: nat)
    ensures k <= |steps|
    ensures forall j :: 0 <= j < k ==> Succeeds(steps[j], ok)
    ensures k < |steps| ==> !Succeeds(steps[k], ok)
  {
    if steps == [] || !Succeeds(steps[0], ok) then 0
    else
      var k := FirstFailure(steps[1..], ok);
      assert forall j :: 1 <= j < k + 1 ==> steps[j] == steps[1..][j - 1];
      k + 1
  }

  /** The steps in order with `?` after each: all labels when every step succeeds, else the
      error of the first step that fails. */
  function RunSteps(steps: seq<Step>, ok: Step -> bool): (r: Result<seq<string>>)
    ensures r.Ok? <==> forall k :: 0 <= k < |steps| ==> Succeeds(steps[k], ok)
    ensures r.Ok? ==> r.value == Labels(steps)
    ensures r.Err? ==> FirstFailure(steps, ok) < |steps| && r.msg == ErrorOf(steps[FirstFailure(steps, ok)])
  {
    var r := Run(steps, ok);
    assert r.Ok? ==> forall k :: 0 <= k < |steps| ==> Succeeds(steps[k], ok);
    assert r.Err? ==> !Succeeds(steps[FirstFailure(steps, ok)], ok);
    r
  }

  function Run(steps: seq<Step>, ok: Step -> bool): (r: Result<seq<string>>)
    ensures r.Ok? <==> FirstFailure(steps, ok) == |steps|
    ensures r.Ok? ==> r.value == Labels(steps)
    ensures r.Err? ==> FirstFailure(steps, ok) < |steps| && r.msg == ErrorOf(steps[FirstFailure(steps, ok)])
  {
    if steps == [] then Ok([])
    else if !Succeeds(steps[0], ok) then Err(ErrorOf(steps[0]))
    else
      match Run(steps[1..], ok)
      case Ok(rest) =>
        LabelsCons(steps);
        Ok([steps[0].note] + rest)
      case Err(e) => Err(e)
  }

  lemma LabelsCons(steps: seq<Step>)
    requires steps != []
    ensures Labels(steps) == [steps[0].note] + Labels(steps[1..])
  {
  }

  // Profiles

  datatype Profile = Conservative | Balanced | Aggressive

  const Rss: Step := Netsh("int tcp set global rss=enabled", "RSS enabled")
  const Rsc: Step := Netsh("int tcp set global rsc=enabled", "RSC enabled")
  const Autotuning: Step := Netsh("int tcp set global autotuninglevel=normal", "Autotuning normal")
  const Ecn: Step := Netsh("int tcp set global ecncapability=enabled", "ECN enabled")
  const Timestamps: Step := Netsh("int tcp set global timestamps=enabled", "Timestamps enabled")
  const Chimney: Step := Netsh("int tcp set global chimney=disabled", "Chimney disabled")
  const HyStart: Step := SetDword("EnableHyStart", 1, "HyStart++ enabled")
  const Prr: Step := SetDword("EnablePrr", 1, "PRR enabled")
  const FastOpen: Step := SetDword("EnableTFO", 1, "TCP Fast Open enabled")
  const Pacing: Step := SetDword("EnableWsd", 0, "TCP Pacing enabled")
  const InitialRto: Step := SetDword("TcpInitialRto", 1000, "Initial RTO reduced")

  /** The steps of each profile, in the order `apply_profile` runs them. */
  function ProfileSteps(p: Profile): (r: seq<Step>)
    ensures p == Conservative ==> |r| == 3
    ensures p == Balanced ==> |r| == 7
    ensures p == Aggressive ==> |r| == 11
    ensures forall k :: 0 <= k < |r| ==> !r[k].DeleteValue?
  {
    match p
    case Conservative => [Rss, Rsc, Autotuning]
    case Balanced => [Rss, Rsc, Autotuning, Ecn, Timestamps, HyStart, Prr]
    case Aggressive => [Rss, Rsc, Autotuning, Ecn, Timestamps, Chimney, HyStart, Prr, FastOpen, Pacing, InitialRto]
  }

  /** `apply_profile`: on success one entry per step of the profile, 3, 7 or 11 of them; a
      failing step reports its error and no list at all. */
  function ApplyProfile(p: Profile, ok: Step -> bool): (r: Result<seq<string>>)
    ensures r.Ok? <==> forall k :: 0 <= k < |ProfileSteps(p)| ==> ok(ProfileSteps(p)[k])
    ensures r.Ok? ==> |r.value| == |ProfileSteps(p)| && r.value == Labels(ProfileSteps(p))
  {
    RunSteps(ProfileSteps(p), ok)
  }

  /** The three profiles nest: each runs every step of the one below it. */
  lemma ProfilesNest()
    ensures forall s :: s in ProfileSteps(Conservative) ==> s in ProfileSteps(Balanced)
    ensures forall s :: s in ProfileSteps(Balanced) ==> s in ProfileSteps(Aggressive)
  {
  }

  const ResetSteps: seq<Step> := [
    Netsh("int tcp set global autotuninglevel=normal", "Autotuning reset"),
    Netsh("int tcp set global ecncapability=default", "ECN reset"),
    Netsh("int tcp set global timestamps=disabled", "Timestamps reset"),
    DeleteValue("EnableHyStart", "HyStart++ removed"),
    DeleteValue("EnablePrr", "PRR removed"),
    DeleteValue("EnableTFO", "TCP Fast Open removed")]

  /** `reset_to_defaults`: it can fail only on one of its three netsh steps, and otherwise
      reports all six. */
  function ResetToDefaults(ok: Step -> bool): (r: Result<seq<string>>)
    ensures r.Ok? <==> forall k :: 0 <= k < 3 ==> ok(ResetSteps[k])
    ensures r.Ok? ==> |r.value| == 6
    ensures r.Err? ==> exists k :: 0 <= k < 3 && r.msg == ErrorOf(ResetSteps[k])
  {
    ResetShape();
    TrailingDeletes(ResetSteps, 3, ok);
    RunSteps(ResetSteps, ok)
  }

  lemma ResetShape()
    ensures |ResetSteps| == 6
    ensures forall k :: 0 <= k < 3 ==> ResetSteps[k].Netsh?
    ensures forall k :: 3 <= k < 6 ==> ResetSteps[k].DeleteValue?
  {
  }

  /** Steps that end in deletes fail only on one of the steps before them. */
  lemma TrailingDeletes(steps: seq<Step>, n: nat, ok: Step -> bool)
    requires n <= |steps|
    requires forall k :: 0 <= k < n ==> !steps[k].DeleteValue?
    requires forall k :: n <= k < |steps| ==> steps[k].DeleteValue?
    ensures RunSteps(steps, ok).Ok? <==> forall k :: 0 <= k < n ==> ok(steps[k])
    ensures RunSteps(steps, ok).Err? ==> exists k :: 0 <= k < n && RunSteps(steps, ok).msg == ErrorOf(steps[k])
  {
    var r := RunSteps(steps, ok);
    if r.Err? {
      assert FirstFailure(steps, ok) < n;
    }
  }
}
