/** Configuration snapshots kept as `backup_<id>.json` files: what a snapshot records, how
    it is written and read back, and how the backup directory is listed, pruned and restored
    from. The directory is a value; reading, writing and deleting files are functions on it. */
module BackupSystem {
  import opened Wrappers
  import Seqs
  import Ranking
  import Text
  import IsoTime

  /** At most this many backup files survive a cleanup. */
  const MaxBackups: nat := 50

  /** The description given to a snapshot created without one. */
  const DefaultDescription: string := "Backup automático"

  /** A JSON object captured verbatim from a command, as (key, value text) pairs. */
  type Json = seq<(string, string)>

  /** The two registry values a snapshot records, each absent when it could not be read. */
  datatype Registry = Registry(throttlingIndex: Option<int>, tcp1323Opts: Option<int>)

  datatype Snapshot = Snapshot(backupId: string, timestamp: IsoTime.DateTime, adapterName: string,
                               dnsServers: seq<string>, ipConfig: Json, tcpSettings: Json,
                               registry: Registry, description: string)

  /** The dictionary `to_dict` produces and the JSON file holds: the timestamp as ISO text. */
  datatype SnapDict = SnapDict(backupId: string, timestamp: string, adapterName: string,
                               dnsServers: seq<string>, ipConfig: Json, tcpSettings: Json,
                               registry: Registry, description: string)

  /** `to_dict`. */
  function ToDict(s: Snapshot): (d: SnapDict)
    ensures |d.timestamp| == 19 || |d.timestamp| == 26
  {
    SnapDict(s.backupId, IsoTime.Iso(s.timestamp), s.adapterName, s.dnsServers, s.ipConfig,
             s.tcpSettings, s.registry, s.description)
  }

  /** `from_dict`: fails exactly when the timestamp text is not a date-time. */
  function FromDict(d: SnapDict): (r: Option<Snapshot>)
    ensures r.Some? <==> IsoTime.ParseIso(d.timestamp).Some?
    ensures r.Some? ==> IsoTime.Valid(r.value.timestamp) && r.value.backupId == d.backupId
                        && r.value.dnsServers == d.dnsServers && r.value.registry == d.registry
  {
    match IsoTime.ParseIso(d.timestamp)
    case None => None
    case Some(t) =>
      Some(Snapshot(d.backupId, t, d.adapterName, d.dnsServers, d.ipConfig, d.tcpSettings,
                    d.registry, d.description))
  }

  /** A snapshot written out and read back is the same snapshot. */
  lemma DictRoundTrip(s: Snapshot)
    requires IsoTime.Valid(s.timestamp)
    ensures FromDict(ToDict(s)) == Some(s)
  {
    IsoTime.IsoRoundTrip(s.timestamp);
  }

  /** `strftime("%Y%m%d_%H%M%S")` of a date-time with a four-digit year: digits apart from the
      `_` at position 8, and for a valid date-time each field reads back from its columns. */
  function BackupId(t: IsoTime.DateTime): (r: string)
    ensures |r| == 15 && r[8] == '_'
    ensures Text.AllDigits(r[..8]) && Text.AllDigits(r[9..])
    ensures IsoTime.Valid(t) ==>
      Text.NatOf(r[..4]) == t.year && Text.NatOf(r[4..6]) == t.month && Text.NatOf(r[6..8]) == t.day
      && Text.NatOf(r[9..11]) == t.hour && Text.NatOf(r[11..13]) == t.minute
      && Text.NatOf(r[13..]) == t.second
  {
    var y, mo, d := IsoTime.Pad(t.year, 4), IsoTime.Pad(t.month, 2), IsoTime.Pad(t.day, 2);
    var h, mi, sec := IsoTime.Pad(t.hour, 2), IsoTime.Pad(t.minute, 2), IsoTime.Pad(t.second, 2);
    var r := y + mo + d + "_" + h + mi + sec;
    assert r[..4] == y && r[4..6] == mo && r[6..8] == d && r[..8] == y + mo + d;
    assert r[9..11] == h && r[11..13] == mi && r[13..] == sec && r[9..] == h + mi + sec;
    assert IsoTime.Valid(t) ==>
      Text.NatOf(y) == t.year && Text.NatOf(mo) == t.month && Text.NatOf(d) == t.day
      && Text.NatOf(h) == t.hour && Text.NatOf(mi) == t.minute && Text.NatOf(sec) == t.second
    by {
      if IsoTime.Valid(t) {
        assert Text.Pow10(2) == 100 && Text.Pow10(4) == 10000;
        IsoTime.PadRoundTrip(t.year, 4);
        IsoTime.PadRoundTrip(t.month, 2);
        IsoTime.PadRoundTrip(t.day, 2);
        IsoTime.PadRoundTrip(t.hour, 2);
        IsoTime.PadRoundTrip(t.minute, 2);
        IsoTime.PadRoundTrip(t.second, 2);
      }
    }
    r
  }

  /** A file of the backup directory: its name, modification time and JSON content, which is
      absent when the file does not hold a snapshot dictionary. */
  datatype File = File(name: string, mtime: real, content: Option<SnapDict>)

  type Dir = seq<File>

  function NameOf(f: File): string { f.name }

  function MTime(f: File): real { f.mtime }

  /** A directory holds at most one file of each name. */
  predicate WellFormed(dir: Dir) { Seqs.DistinctBy(dir, NameOf) }

  function FileName(id: string): (r: string)
    ensures IsBackupName(r)
  {
    "backup_" + id + ".json"
  }

  /** The names `glob("backup_*.json")` matches. */
  predicate IsBackupName(n: string) {
    |n| >= 12 && n[..7] == "backup_" && n[|n| - 5..] == ".json"
  }

  predicate IsBackup(f: File) { IsBackupName(f.name) }

  /** The backup files of the directory, in directory order. */
  function Backups(dir: Dir): (r: seq<File>)
    ensures forall k :: 0 <= k < |r| ==> r[k] in dir && IsBackup(r[k])
    ensures forall k :: 0 <= k < |dir| && IsBackup(dir[k]) ==> dir[k] in r
  {
    Seqs.Filter(dir, IsBackup)
  }

  /** The snapshot a file holds, if it holds one. */
  function Read(f: File): Option<Snapshot> {
    if f.content.None? then None else FromDict(f.content.value)
  }

  /** The file of the given name, if the directory has one. */
  function Lookup(dir: Dir, name: string): (r: Option<File>)
    ensures r.Some? ==> r.value in dir && r.value.name == name
    ensures r.None? <==> forall k :: 0 <= k < |dir| ==> dir[k].name != name
  {
    if dir == [] then None
    else if dir[0].name == name then Some(dir[0])
    else Lookup(dir[1..], name)
  }

  /** In a well-formed directory the file of a name is the one found. */
  lemma {:induction false} LookupFinds(dir: Dir, f: File)
    requires WellFormed(dir) && f in dir
    ensures Lookup(dir, f.name) == Some(f)
  {
    if dir[0] != f {
      assert f in dir[1..];
      LookupFinds(dir[1..], f);
    }
  }

  /** `load_snapshot`: the snapshot in `backup_<id>.json`, or nothing when there is no such
      file or it does not hold a snapshot. */
  function LoadSnapshot(dir: Dir, id: string): (r: Option<Snapshot>)
    ensures (forall k :: 0 <= k < |dir| ==> dir[k].name != FileName(id)) ==> r.None?
    ensures r.Some? ==> exists f :: f in dir && f.name == FileName(id) && Read(f) == r
  {
    match Lookup(dir, FileName(id))
    case None => None
    case Some(f) => Read(f)
  }

  /** The directory without the file of the given name. */
  function Without(dir: Dir, name: string): (r: Dir)
    ensures forall k :: 0 <= k < |r| ==> r[k] in dir && r[k].name != name
    ensures forall k :: 0 <= k < |dir| && dir[k].name != name ==> dir[k] in r
    ensures WellFormed(dir) ==> WellFormed(r)
  {
    var r := Seqs.Filter(dir, (f: File) => f.name != name);
    assert WellFormed(dir) ==> WellFormed(r) by {
      if WellFormed(dir) {
        Seqs.FilterKeepsDistinct(dir, NameOf, (f: File) => f.name != name);
      }
    }
    r
  }

  /** Writing `backup_<id>.json`: a file of that name is replaced. */
  function Save(dir: Dir, s: Snapshot, mtime: real): (r: Dir)
    ensures WellFormed(dir) ==> WellFormed(r)
    ensures forall k :: 0 <= k < |dir| && dir[k].name != FileName(s.backupId) ==> dir[k] in r
    ensures forall k :: 0 <= k < |r| && r[k].name != FileName(s.backupId) ==> r[k] in dir
  {
    Without(dir, FileName(s.backupId)) + [File(FileName(s.backupId), mtime, Some(ToDict(s)))]
  }

  /** A saved snapshot loads back unchanged. */
  lemma SaveThenLoad(dir: Dir, s: Snapshot, mtime: real)
    requires IsoTime.Valid(s.timestamp)
    ensures LoadSnapshot(Save(dir, s, mtime), s.backupId) == Some(s)
  {
    var file := File(FileName(s.backupId), mtime, Some(ToDict(s)));
    LookupLast(Without(dir, FileName(s.backupId)), file);
    DictRoundTrip(s);
  }

  lemma {:induction false} LookupLast(dir: Dir, f: File)
    requires forall k :: 0 <= k < |dir| ==> dir[k].name != f.name
    ensures Lookup(dir + [f], f.name) == Some(f)
  {
    if dir != [] {
      assert (dir + [f])[1..] == dir[1..] + [f];
      LookupLast(dir[1..], f);
    }
  }

  /** `delete_snapshot`: the directory without `backup_<id>.json`, and whether it was there. */
  function DeleteSnapshot(dir: Dir, id: string): (r: (Dir, bool))
    ensures r.1 <==> exists k :: 0 <= k < |dir| && dir[k].name == FileName(id)
    ensures forall k :: 0 <= k < |r.0| ==> r.0[k] in dir && r.0[k].name != FileName(id)
    ensures forall k :: 0 <= k < |dir| && dir[k].name != FileName(id) ==> dir[k] in r.0
  {
    (Without(dir, FileName(id)), Lookup(dir, FileName(id)).Some?)
  }

  /** After a deletion the snapshot no longer loads. */
  lemma DeleteThenLoad(dir: Dir, id: string)
    ensures LoadSnapshot(DeleteSnapshot(dir, id).0, id).None?
  {
  }

  // Listing

  predicate NamesDescending(s: seq<File>) {
    forall i, j :: 0 <= i < j < |s| ==> Text.LexLe(s[j].name, s[i].name)
  }

  function InsertByName(x: File, s: seq<File>): (r: seq<File>)
    requires NamesDescending(s)
    ensures |r| == |s| + 1 && multiset(r) == multiset(s) + multiset{x}
    ensures NamesDescending(r)
  {
    if s == [] then [x]
    else if Text.LexLe(s[0].name, x.name) then
      AboveAll(x, s);
      [x] + s
    else
      var t := InsertByName(x, s[1..]);
      assert s == [s[0]] + s[1..];
      Text.LexLeTotal(s[0].name, x.name);
      BelowHead(s[0], t, s[1..], x);
      [s[0]] + t
  }

  lemma AboveAll(x: File, s: seq<File>)
    requires NamesDescending(s) && s != [] && Text.LexLe(s[0].name, x.name)
    ensures NamesDescending([x] + s)
  {
    forall k | 0 < k < |s| ensures Text.LexLe(s[k].name, x.name) {
      Text.LexLeTransitive(s[k].name, s[0].name, x.name);
    }
  }

  lemma BelowHead(h: File, t: seq<File>, rest: seq<File>, x: File)
    requires multiset(t) == multiset(rest) + multiset{x} && NamesDescending(t)
    requires forall k :: 0 <= k < |rest| ==> Text.LexLe(rest[k].name, h.name)
    requires Text.LexLe(x.name, h.name)
    ensures NamesDescending([h] + t)
  {
    forall k | 0 <= k < |t| ensures Text.LexLe(t[k].name, h.name) {
      assert t[k] in multiset(rest) + multiset{x};
      if t[k] != x {
        assert t[k] in rest;
      }
    }
  }

  /** `sorted(..., reverse=True)` on the file names. */
  function ByNameDescending(s: seq<File>): (r: seq<File>)
    ensures |r| == |s| && multiset(r) == multiset(s)
    ensures NamesDescending(r)
  {
    if s == [] then []
    else
      assert s == [s[0]] + s[1..];
      InsertByName(s[0], ByNameDescending(s[1..]))
  }

  /** The snapshots the files hold, in file order, skipping files that hold none. */
  function Loaded(files: seq<File>): (r: seq<Snapshot>)
    ensures |r| <= |files|
    ensures forall k :: 0 <= k < |r| ==> exists f :: f in files && Read(f) == Some(r[k])
  {
    if files == [] then []
    else
      var init := files[..|files| - 1];
      var last := files[|files| - 1];
      assert forall f :: f in init ==> f in files;
      Loaded(init) + (if Read(last).Some? then [Read(last).value] else [])
  }

  lemma {:induction false} LoadedPrefix(files: seq<File>, i: nat)
    requires i <= |files|
    ensures Loaded(files[..i]) <= Loaded(files)
    decreases |files|
  {
    if i < |files| {
      var init := files[..|files| - 1];
      assert init[..i] == files[..i];
      LoadedPrefix(init, i);
    } else {
      assert files[..i] == files;
    }
  }

  /** The number of snapshots `list_snapshots(limit)` can return: it stops once it has
      `limit`, which it only checks after taking a snapshot. */
  function Cap(limit: int): (n: nat)
    ensures n >= 1 && n >= limit
  {
    if limit < 1 then 1 else limit
  }

  /** `list_snapshots`: the readable backups, newest file name first, stopping at `limit`. */
  method ListSnapshots(dir: Dir, limit: int) returns (r: seq<Snapshot>)
    ensures r == Seqs.Take(Loaded(ByNameDescending(Backups(dir))), Cap(limit))
    ensures |r| <= Cap(limit)
    ensures forall k :: 0 <= k < |r| ==> StoredIn(dir, r[k])
  {
    r := Collect(ByNameDescending(Backups(dir)), limit);
    ListedAreBackups(dir, limit, r);
  }

  /** The loop of `list_snapshots` over the sorted files. */
  method Collect(files: seq<File>, limit: int) returns (r: seq<Snapshot>)
    ensures r == Seqs.Take(Loaded(files), Cap(limit))
  {
    r := [];
    var i := 0;
    while i < |files|
      invariant 0 <= i <= |files|
      invariant r == Loaded(files[..i])
      invariant |r| < Cap(limit)
    {
      LoadedSnoc(files, i);
      var s := Read(files[i]);
      if s.Some? {
        r := r + [s.value];
        if |r| >= limit {
          LoadedPrefix(files, i + 1);
          TakePrefix(r, Loaded(files), Cap(limit));
          return;
        }
      }
      i := i + 1;
    }
    assert files[..i] == files;
  }

  lemma TakePrefix<T>(a: seq<T>, b: seq<T>, n: nat)
    requires a <= b && |a| == n
    ensures Seqs.Take(b, n) == a
  {
  }

  lemma ListedAreBackups(dir: Dir, limit: int, r: seq<Snapshot>)
    requires r == Seqs.Take(Loaded(ByNameDescending(Backups(dir))), Cap(limit))
    ensures forall k :: 0 <= k < |r| ==> StoredIn(dir, r[k])
  {
    var files := ByNameDescending(Backups(dir));
    LoadedAreBackups(dir, files);
    forall k | 0 <= k < |r| ensures r[k] == Loaded(files)[k] { }
  }

  lemma LoadedSnoc(files: seq<File>, i: nat)
    requires i < |files|
    ensures Loaded(files[..i + 1])
      == Loaded(files[..i]) + (if Read(files[i]).Some? then [Read(files[i]).value] else [])
  {
    assert files[..i + 1][..i] == files[..i];
  }

  lemma LoadedAreBackups(dir: Dir, files: seq<File>)
    requires files == ByNameDescending(Backups(dir))
    ensures forall k :: 0 <= k < |Loaded(files)| ==>
      StoredIn(dir, Loaded(files)[k])
  {
    forall k | 0 <= k < |Loaded(files)|
      ensures StoredIn(dir, Loaded(files)[k])
    {
      var f :| f in files && Read(f) == Some(Loaded(files)[k]);
      SortedIsBackup(dir, f);
      assert f in dir && IsBackup(f) && Read(f) == Some(Loaded(files)[k]);
    }
  }

  /** Some backup file of the directory holds exactly this snapshot. */
  ghost predicate StoredIn(dir: Dir, s: Snapshot) {
    exists f :: f in dir && IsBackup(f) && Read(f) == Some(s)
  }

  lemma SortedIsBackup(dir: Dir, f: File)
    requires f in ByNameDescending(Backups(dir))
    ensures f in dir && IsBackup(f)
  {
    var backups := Backups(dir);
    assert f in multiset(ByNameDescending(backups));
    assert f in multiset(backups);
    var j :| 0 <= j < |backups| && backups[j] == f;
  }

  // Cleanup

  /** The backups `_cleanup_old_backups` deletes: all but the 50 most recently modified. */
  function Doomed(dir: Dir): (r: seq<File>)
    ensures forall k :: 0 <= k < |r| ==> IsBackup(r[k]) && r[k] in dir
  {
    var backups := Backups(dir);
    if |backups| <= MaxBackups then []
    else
      var sorted := Ranking.SortAscendingBy(backups, MTime);
      var r := sorted[..|sorted| - MaxBackups];
      assert forall k :: 0 <= k < |r| ==> r[k] in multiset(backups);
      r
  }

  /** `_cleanup_old_backups`: the directory without the doomed backups. */
  function Cleanup(dir: Dir): (r: Dir)
    ensures |Backups(dir)| <= MaxBackups ==> r == dir
    ensures forall k :: 0 <= k < |r| ==> r[k] in dir
    ensures forall k :: 0 <= k < |dir| && dir[k] !in Doomed(dir) ==> dir[k] in r
    ensures WellFormed(dir) ==> WellFormed(r)
  {
    if |Backups(dir)| <= MaxBackups then dir
    else
      var r := Seqs.Filter(dir, (f: File) => f !in Doomed(dir));
      assert WellFormed(dir) ==> WellFormed(r) by {
        if WellFormed(dir) {
          Seqs.FilterKeepsDistinct(dir, NameOf, (f: File) => f !in Doomed(dir));
        }
      }
      r
  }

  /** Files that are not backups are never deleted. */
  lemma CleanupSparesOthers(dir: Dir, f: File)
    requires f in dir && !IsBackup(f)
    ensures f in Cleanup(dir)
  {
  }

  /** After a cleanup at most 50 backups remain. */
  lemma CleanupBounded(dir: Dir)
    requires WellFormed(dir)
    ensures |Backups(Cleanup(dir))| <= MaxBackups
  {
    var backups := Backups(dir);
    if |backups| > MaxBackups {
      var sorted := Ranking.SortAscendingBy(backups, MTime);
      var survivors := sorted[|sorted| - MaxBackups..];
      var s := Seqs.Filter(dir, (f: File) => f !in Doomed(dir));
      Seqs.FilterKeepsDistinct(dir, NameOf, (f: File) => f !in Doomed(dir));
      forall k | 0 <= k < |s| && IsBackup(s[k]) ensures NameOf(s[k]) in Seqs.ImageSet(survivors, NameOf) {
        SparedIsSurvivor(dir, s[k]);
      }
      Seqs.FilterIntoBounded(s, IsBackup, survivors, NameOf);
    }
  }

  lemma SparedIsSurvivor(dir: Dir, f: File)
    requires |Backups(dir)| > MaxBackups && f in dir && IsBackup(f) && f !in Doomed(dir)
    ensures var sorted := Ranking.SortAscendingBy(Backups(dir), MTime);
      f in sorted[|sorted| - MaxBackups..]
  {
    var sorted := Ranking.SortAscendingBy(Backups(dir), MTime);
    assert f in multiset(sorted);
    InSuffixUnlessInPrefix(sorted, |sorted| - MaxBackups, f);
  }

  lemma InSuffixUnlessInPrefix<T>(s: seq<T>, n: nat, x: T)
    requires n <= |s| && x in s && x !in s[..n]
    ensures x in s[n..]
  {
    var j :| 0 <= j < |s| && s[j] == x;
    if j < n {
      assert false;
    }
    assert s[n..][j - n] == x;
  }

  /** A backup the cleanup deletes is no newer than any backup it keeps. */
  lemma CleanupDeletesOldest(dir: Dir, gone: File, kept: File)
    requires gone in dir && gone !in Cleanup(dir)
    requires kept in Cleanup(dir) && IsBackup(kept)
    ensures IsBackup(gone) && gone.mtime <= kept.mtime
  {
    var backups := Backups(dir);
    var sorted := Ranking.SortAscendingBy(backups, MTime);
    var n := |sorted| - MaxBackups;
    var doomed := Doomed(dir);
    assert gone in doomed;
    var i :| 0 <= i < |doomed| && doomed[i] == gone;
    assert kept in backups;
    assert kept in multiset(sorted);
    var j :| 0 <= j < |sorted| && sorted[j] == kept;
    assert MTime(sorted[i]) <= MTime(sorted[j]);
  }

  // Creation

  /** What the snapshot captures from the system at creation time. */
  datatype Captured = Captured(dnsServers: seq<string>, ipConfig: Json, tcpSettings: Json, registry: Registry)

  /** `_get_current_dns`: the non-blank lines of the command output, stripped, or nothing when
      the command failed. */
  function CurrentDns(succeeded: bool, stdout: string): (r: seq<string>)
    ensures !succeeded ==> r == []
    ensures forall k :: 0 <= k < |r| ==> r[k] != [] && Text.Trim(r[k]) == r[k]
  {
    if !succeeded then []
    else
      var lines := Text.Split(Text.Trim(stdout), '\n');
      var kept := Seqs.Filter(lines, (l: string) => Text.Trim(l) != []);
      seq(|kept|, k requires 0 <= k < |kept| => Text.Trim(kept[k]))
  }

  /** `create_snapshot`: record the state under an id made from the creation time, write it,
      then clean up old backups. The new file's modification time is `mtime`. */
  function CreateSnapshot(dir: Dir, adapter: string, description: string, now: IsoTime.DateTime,
                          mtime: real, state: Captured): (r: (Snapshot, Dir))
    ensures r.0.backupId == BackupId(now) && r.0.timestamp == now && r.0.adapterName == adapter
    ensures r.0.description == (if description == [] then DefaultDescription else description)
    ensures r.0.dnsServers == state.dnsServers && r.0.registry == state.registry
  {
    var s := Snapshot(BackupId(now), now, adapter, state.dnsServers, state.ipConfig,
                      state.tcpSettings, state.registry,
                      if description == [] then DefaultDescription else description);
    (s, Cleanup(Save(dir, s, mtime)))
  }

  /** Creating a snapshot leaves at most 50 backups. */
  lemma CreateBounded(dir: Dir, adapter: string, description: string, now: IsoTime.DateTime,
                      mtime: real, state: Captured)
    requires WellFormed(dir)
    ensures |Backups(CreateSnapshot(dir, adapter, description, now, mtime, state).1)| <= MaxBackups
  {
    var s := CreateSnapshot(dir, adapter, description, now, mtime, state).0;
    CleanupBounded(Save(dir, s, mtime));
  }

  /** A snapshot written later than every existing file survives its own cleanup and loads
      back unchanged. */
  lemma CreateThenLoad(dir: Dir, adapter: string, description: string, now: IsoTime.DateTime,
                       mtime: real, state: Captured)
    requires WellFormed(dir) && IsoTime.Valid(now)
    requires forall k :: 0 <= k < |dir| ==> dir[k].mtime < mtime
    ensures var r := CreateSnapshot(dir, adapter, description, now, mtime, state);
      LoadSnapshot(r.1, r.0.backupId) == Some(r.0)
  {
    var s := CreateSnapshot(dir, adapter, description, now, mtime, state).0;
    var saved := Save(dir, s, mtime);
    var file := File(FileName(s.backupId), mtime, Some(ToDict(s)));
    assert saved[|saved| - 1] == file;
    SavedIsNewest(dir, s, mtime);
    NewestSurvives(saved, file);
    CleanupKeepsLoad(saved, s.backupId, file);
    DictRoundTrip(s);
  }

  lemma SavedIsNewest(dir: Dir, s: Snapshot, mtime: real)
    requires forall k :: 0 <= k < |dir| ==> dir[k].mtime < mtime
    ensures var saved := Save(dir, s, mtime);
      forall k :: 0 <= k < |saved| && saved[k] != saved[|saved| - 1] ==> saved[k].mtime < mtime
  {
    var saved := Save(dir, s, mtime);
    forall k | 0 <= k < |saved| && saved[k] != saved[|saved| - 1] ensures saved[k].mtime < mtime {
      if k < |saved| - 1 {
        assert saved[k] in Without(dir, FileName(s.backupId));
      }
    }
  }

  /** The unique most recently modified backup is never doomed. */
  lemma NewestSurvives(dir: Dir, x: File)
    requires WellFormed(dir) && x in dir && IsBackup(x)
    requires forall k :: 0 <= k < |dir| && dir[k] != x ==> dir[k].mtime < x.mtime
    ensures x !in Doomed(dir)
  {
    var backups := Backups(dir);
    if |backups| > MaxBackups {
      var sorted := Ranking.SortAscendingBy(backups, MTime);
      BackupsOnce(dir, x);
      NewestOfBackups(dir, x);
      GreatestNotInPrefix(sorted, backups, MTime, x, |sorted| - MaxBackups);
    }
  }

  lemma NewestOfBackups(dir: Dir, x: File)
    requires x in dir && IsBackup(x)
    requires forall k :: 0 <= k < |dir| && dir[k] != x ==> dir[k].mtime < x.mtime
    ensures x in Backups(dir)
    ensures forall y :: y in Backups(dir) && y != x ==> MTime(y) < MTime(x)
  {
    var kx :| 0 <= kx < |dir| && dir[kx] == x;
    forall y | y in Backups(dir) && y != x ensures MTime(y) < MTime(x) {
      var k :| 0 <= k < |dir| && dir[k] == y;
    }
  }

  /** In a list sorted by ascending `f`, an element that occurs once and whose `f` beats
      every other element's sits at the very end, past any proper prefix. */
  lemma GreatestNotInPrefix<T>(s: seq<T>, t: seq<T>, f: T -> real, x: T, n: nat)
    requires n < |s| && multiset(s) == multiset(t) && multiset(t)[x] <= 1 && x in t
    requires forall a, b :: 0 <= a < b < |s| ==> f(s[a]) <= f(s[b])
    requires forall y :: y in t && y != x ==> f(y) < f(x)
    ensures x !in s[..n]
  {
    if x in s[..n] {
      var i :| 0 <= i < n && s[..n][i] == x;
      var last := |s| - 1;
      assert f(s[i]) <= f(s[last]);
      assert s[last] in multiset(t);
      if s[last] == x {
        Seqs.TwiceAt(s, i, last);
      }
      assert false;
    }
  }

  lemma BackupsOnce(dir: Dir, x: File)
    requires WellFormed(dir)
    ensures multiset(Backups(dir))[x] <= 1
  {
    Seqs.FilterKeepsDistinct(dir, NameOf, IsBackup);
    Seqs.DistinctByOnce(Backups(dir), NameOf, x);
  }

  /** A file that survives the cleanup still loads under its id. */
  lemma CleanupKeepsLoad(dir: Dir, id: string, x: File)
    requires WellFormed(dir) && x in dir && x.name == FileName(id) && x !in Doomed(dir)
    ensures LoadSnapshot(Cleanup(dir), id) == Read(x)
  {
    assert x in Cleanup(dir);
    LookupFinds(Cleanup(dir), x);
  }

  // Restoring

  /** The system changes a restore makes. */
  datatype Action = ResetDns(adapter: string) | SetDns(adapter: string, servers: string)
                  | WriteRegistry(name: string, value: int)

  /** Whether the restore succeeded, and the changes it attempted, in order. */
  datatype Restored = Restored(ok: bool, attempted: seq<Action>)

  /** `_restore_dns`: reset the adapter, then set the saved servers; a failing step raises. */
  function RestoreDns(adapter: string, servers: seq<string>, run: Action -> bool): (r: Restored)
    ensures r.ok <==> run(ResetDns(adapter)) && run(SetDns(adapter, Text.Join(servers, ",")))
  {
    if !run(ResetDns(adapter)) then Restored(false, [ResetDns(adapter)])
    else
      var apply := SetDns(adapter, Text.Join(servers, ","));
      Restored(run(apply), [ResetDns(adapter), apply])
  }

  /** `_restore_registry`: write each saved value; the first failure ends the writes and is
      swallowed. */
  function RestoreRegistry(reg: Registry, run: Action -> bool): (r: seq<Action>)
    ensures forall k :: 0 <= k < |r| ==> r[k].WriteRegistry?
    ensures |r| <= 2
    ensures reg.throttlingIndex.Some? ==> r != [] && r[0] == WriteRegistry("NetworkThrottlingIndex", reg.throttlingIndex.value)
    ensures reg.tcp1323Opts.Some? ==>
      r != [] && (r[|r| - 1] == WriteRegistry("Tcp1323Opts", reg.tcp1323Opts.value)
                  <==> reg.throttlingIndex.None? || run(WriteRegistry("NetworkThrottlingIndex", reg.throttlingIndex.value)))
    ensures reg == Registry(None, None) ==> r == []
  {
    var first := if reg.throttlingIndex.Some?
                 then [WriteRegistry("NetworkThrottlingIndex", reg.throttlingIndex.value)] else [];
    var second := if reg.tcp1323Opts.Some? then [WriteRegistry("Tcp1323Opts", reg.tcp1323Opts.value)] else [];
    if first != [] && !run(first[0]) then first else first + second
  }

  /** `restore_snapshot`: fails when the snapshot does not load or restoring its DNS servers
      fails; registry values are then written with their failures ignored. The adapter is the
      given one, or the snapshot's own when none is given. */
  function RestoreSnapshot(dir: Dir, id: string, adapter: string, run: Action -> bool): (r: Restored)
    ensures LoadSnapshot(dir, id).None? ==> r == Restored(false, [])
    ensures r.ok <==> (LoadSnapshot(dir, id).Some?
      && var s := LoadSnapshot(dir, id).value;
         var target := if adapter == [] then s.adapterName else adapter;
         (s.dnsServers == [] || RestoreDns(target, s.dnsServers, run).ok))
  {
    match LoadSnapshot(dir, id)
    case None => Restored(false, [])
    case Some(s) =>
      var target := if adapter == [] then s.adapterName else adapter;
      var dns := if s.dnsServers != [] then RestoreDns(target, s.dnsServers, run) else Restored(true, []);
      if !dns.ok then dns
      else
        var regs := if s.registry != Registry(None, None) then RestoreRegistry(s.registry, run) else [];
        Restored(true, dns.attempted + regs)
  }

  /** Registry failures never decide the outcome: two runs that agree on the DNS steps give the
      same verdict. */
  lemma RegistryNeverDecides(dir: Dir, id: string, adapter: string, run1: Action -> bool, run2: Action -> bool)
    requires forall a: Action :: !a.WriteRegistry? ==> run1(a) == run2(a)
    ensures RestoreSnapshot(dir, id, adapter, run1).ok == RestoreSnapshot(dir, id, adapter, run2).ok
  {
  }

  /** With no adapter given, the DNS steps target the adapter the snapshot was taken on. */
  lemma RestoreTargetsSnapshotAdapter(dir: Dir, id: string, run: Action -> bool)
    requires LoadSnapshot(dir, id).Some? && LoadSnapshot(dir, id).value.dnsServers != []
    ensures RestoreSnapshot(dir, id, [], run).attempted[0] == ResetDns(LoadSnapshot(dir, id).value.adapterName)
  {
  }
}
