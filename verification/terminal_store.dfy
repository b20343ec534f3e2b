/** The terminal log of the desktop front end: an oldest-first list of entries kept to the
    newest 500, the batch of dry-run commands, and the level filters.

    Entry ids come from a random source or the clock and are parameters; timestamps are
    not modelled. */
module TerminalStore {
  import opened Wrappers
  import Seqs

  /** The five levels, and whatever other text a back-end event carries as its level: the
      store casts it without checking. */
  datatype Level = InfoLevel | Warn | ErrorLevel | Debug | DryRun | Unchecked(name: string)

  /** A random UUID, or `dryrun-<time>-<index>` for an entry of a batch. */
  datatype EntryId = Uuid(text: string) | BatchId(time: int, index: nat)

  datatype Entry = Entry(id: EntryId, level: Level, message: string, source: Option<string>)

  const MaxLogs: nat := 500

  /** JavaScript's `s.slice(start)`: a negative start counts from the end, and `-0` is 0, so
      `slice(-0)` keeps everything. */
  function SliceFrom<T>(s: seq<T>, start: int): (r: seq<T>)
    ensures start == 0 ==> r == s
    ensures start < 0 ==> r == Seqs.TakeLast(s, -start)
  {
    Seqs.PySuffix(s, start)
  }

  /** `addLog`: the newest 499 entries and the new one after them. */
  function AddLog(logs: seq<Entry>, level: Level, message: string, source: Option<string>, uuid: string): (r: seq<Entry>)
    ensures |r| <= MaxLogs && |r| == (if |logs| < MaxLogs then |logs| + 1 else MaxLogs)
    ensures r[|r| - 1] == Entry(Uuid(uuid), level, message, source)
    ensures r[..|r| - 1] == logs[|logs| - (|r| - 1)..]
  {
    SliceFrom(logs, -(MaxLogs - 1)) + [Entry(Uuid(uuid), level, message, source)]
  }

  /** Adding one entry keeps the newest 500 of the old log with the new entry appended: the
      newest 499 old entries, then the new one. */
  lemma AddLogKeepsNewest(logs: seq<Entry>, level: Level, message: string, source: Option<string>, uuid: string)
    ensures AddLog(logs, level, message, source, uuid) == Seqs.TakeLast(logs + [Entry(Uuid(uuid), level, message, source)], MaxLogs)
  {
    KeepNewestThenAppend(logs, [Entry(Uuid(uuid), level, message, source)], MaxLogs);
  }

  /** Keeping the newest `n - |e|` and appending `e` keeps the newest `n` of them all. */
  lemma KeepNewestThenAppend<T>(s: seq<T>, e: seq<T>, n: nat)
    requires |e| < n
    ensures Seqs.PySuffix(s, -(n - |e|)) + e == Seqs.TakeLast(s + e, n)
  {
    var kept := Seqs.PySuffix(s, -(n - |e|));
    var r := kept + e;
    var t := Seqs.TakeLast(s + e, n);
    assert |r| == |t|;
    forall k | 0 <= k < |r| ensures r[k] == t[k] {
      if k < |kept| {
        assert r[k] == s[|s| - |kept| + k];
      } else {
        assert r[k] == e[k - |kept|];
      }
    }
  }

  const ClearedMessage: string := "Terminal limpiada"

  /** `clear`: the log emptied, then one info entry saying so. */
  function Clear(uuid: string): (r: seq<Entry>)
    ensures |r| == 1 && r[0].level == InfoLevel && r[0].source.None?
  {
    AddOnEmpty(InfoLevel, ClearedMessage, uuid)
  }

  function AddOnEmpty(level: Level, message: string, uuid: string): (r: seq<Entry>)
    ensures r == [Entry(Uuid(uuid), level, message, None)]
  {
    AddLog([], level, message, None, uuid)
  }

  /** The entries of a dry-run batch, one per command, in order. */
  function BatchEntries(commands: seq<string>, time: int): (r: seq<Entry>)
    ensures |r| == |commands|
    ensures forall i :: 0 <= i < |r| ==> r[i] == Entry(BatchId(time, i), DryRun, commands[i], Some("dry-run"))
  {
    seq(|commands|, i requires 0 <= i < |commands| => Entry(BatchId(time, i), DryRun, commands[i], Some("dry-run")))
  }

  /** `addDryRunBatch` as written: it keeps `logs.slice(-(500 - n))` before the n new entries.
      For a batch of 500 that is `slice(-0)`, the whole log, and for a longer batch a
      positive start that drops the oldest entries but still keeps too many. */
  function AddBatchAsWritten(logs: seq<Entry>, commands: seq<string>, time: int): seq<Entry> {
    var entries := BatchEntries(commands, time);
    SliceFrom(logs, -(MaxLogs - |entries|)) + entries
  }

  /** A full batch of 500 onto a non-empty log leaves more than 500 entries. */
  lemma FullBatchOverflowsAsWritten(logs: seq<Entry>, commands: seq<string>, time: int)
    requires |logs| > 0 && |commands| == MaxLogs
    ensures |AddBatchAsWritten(logs, commands, time)| == |logs| + MaxLogs > MaxLogs
  {
  }

  /** `addDryRunBatch` as intended: the batch after the old entries, and only the newest 500
      of them all kept. */
  function AddBatch(logs: seq<Entry>, commands: seq<string>, time: int): (r: seq<Entry>)
    ensures |r| == if |logs| + |commands| <= MaxLogs then |logs| + |commands| else MaxLogs
    ensures r == (logs + BatchEntries(commands, time))[|logs| + |commands| - |r|..]
  {
    Seqs.TakeLast(logs + BatchEntries(commands, time), MaxLogs)
  }

  /** Below 500 commands the code as written already does what is intended, whatever the
      length of the log. */
  lemma AddBatchAgreesBelowCap(logs: seq<Entry>, commands: seq<string>, time: int)
    requires |commands| < MaxLogs
    ensures AddBatchAsWritten(logs, commands, time) == AddBatch(logs, commands, time)
  {
    KeepNewestThenAppend(logs, BatchEntries(commands, time), MaxLogs);
  }

  /** Every entry of a batch that fits shows in the dry-run list, after what was there. */
  lemma BatchShowsInDryRun(logs: seq<Entry>, commands: seq<string>, time: int)
    requires |logs| + |commands| <= MaxLogs
    ensures DryRunLogs(AddBatch(logs, commands, time)) == DryRunLogs(logs) + BatchEntries(commands, time)
  {
    var e := BatchEntries(commands, time);
    assert AddBatch(logs, commands, time) == logs + e;
    Seqs.FilterAppend(logs, e, IsDryRun);
    AllDryRun(e);
  }

  lemma {:induction false} AllDryRun(s: seq<Entry>)
    requires forall k :: 0 <= k < |s| ==> s[k].level == DryRun
    ensures Seqs.Filter(s, IsDryRun) == s
  {
    if s != [] {
      AllDryRun(s[1..]);
    }
  }

  predicate IsDryRun(e: Entry) { e.level == DryRun }
  predicate IsError(e: Entry) { e.level == ErrorLevel }

  /** `dryRunLogs`: exactly the entries at level dryrun. */
  function DryRunLogs(logs: seq<Entry>): (r: seq<Entry>)
    ensures forall k :: 0 <= k < |r| ==> r[k].level == DryRun && r[k] in logs
    ensures forall k :: 0 <= k < |logs| && logs[k].level == DryRun ==> logs[k] in r
  {
    Seqs.Filter(logs, IsDryRun)
  }

  /** `errorLogs`: exactly the entries at level error. */
  function ErrorLogs(logs: seq<Entry>): (r: seq<Entry>)
    ensures forall k :: 0 <= k < |r| ==> r[k].level == ErrorLevel && r[k] in logs
    ensures forall k :: 0 <= k < |logs| && logs[k].level == ErrorLevel ==> logs[k] in r
  {
    Seqs.Filter(logs, IsError)
  }
}
