/** The probe history shared by both DNS intelligence services, and the 24-hour summary
    each service derives from it for one server. */
module DnsHistory {
  import Seqs

  /** The monitored servers (address, name), in the order of both services' server tables. */
  const Servers: seq<(string, string)> := [
    ("1.1.1.1", "Cloudflare"), ("1.0.0.1", "Cloudflare Secondary"),
    ("8.8.8.8", "Google"), ("8.8.4.4", "Google Secondary"),
    ("9.9.9.9", "Quad9"), ("149.112.112.112", "Quad9 Secondary"),
    ("208.67.222.222", "OpenDNS"), ("208.67.220.220", "OpenDNS Secondary"),
    ("94.140.14.14", "AdGuard"), ("94.140.15.15", "AdGuard Secondary"),
    ("185.228.168.9", "CleanBrowsing")]

  /** One probe of one server. */
  datatype Entry = Entry(timestamp: int, address: string, pingMs: real, resolveMs: real, success: bool)

  /** The 24-hour fields of a server's metrics. */
  datatype Day = Day(avgPing: real, avgResolve: real, uptime: real, checks: nat, failures: nat)

  /** A server that has never been checked: no averages, full uptime. */
  const FreshDay: Day := Day(0.0, 0.0, 100.0, 0, 0)

  /** The entries of `address` newer than `cutoff`. */
  function Window(history: seq<Entry>, address: string, cutoff: int): (r: seq<Entry>)
    ensures forall k :: 0 <= k < |r| ==> r[k] in history && r[k].address == address && r[k].timestamp > cutoff
    ensures forall k :: 0 <= k < |history| && history[k].address == address && history[k].timestamp > cutoff ==>
      history[k] in r
  {
    Seqs.Filter(history, (e: Entry) => e.address == address && e.timestamp > cutoff)
  }

  predicate Succeeded(e: Entry) { e.success }
  predicate Failed(e: Entry) { !e.success }

  function Successful(es: seq<Entry>): (r: seq<Entry>)
    ensures forall k :: 0 <= k < |r| ==> r[k] in es && r[k].success
  {
    Seqs.Filter(es, Succeeded)
  }

  function Pings(es: seq<Entry>): seq<real> {
    seq(|es|, k requires 0 <= k < |es| => es[k].pingMs)
  }

  function Resolves(es: seq<Entry>): seq<real> {
    seq(|es|, k requires 0 <= k < |es| => es[k].resolveMs)
  }

  /** The summary of a server's window. An empty window keeps the previous summary. Otherwise
      the checks are the window's entries and the failures its unsuccessful ones; the averages
      are the means over the successful entries, kept from before when there are none; the
      uptime is the successful share of the window as a percentage. */
  function Summarize(d: Day, es: seq<Entry>): (r: Day)
    ensures es == [] ==> r == d
    ensures Successful(es) == [] ==> r.avgPing == d.avgPing && r.avgResolve == d.avgResolve
    ensures Successful(es) != [] ==>
      r.avgPing == Seqs.Sum(Pings(Successful(es))) / |Successful(es)| as real
      && r.avgResolve == Seqs.Sum(Resolves(Successful(es))) / |Successful(es)| as real
    ensures es != [] ==>
      r.checks == |es| && r.failures == |Seqs.Filter(es, Failed)|
      && r.uptime == |Successful(es)| as real / |es| as real * 100.0
  {
    if |es| == 0 then d
    else
      var ok := Successful(es);
      Day(if |ok| > 0 then Seqs.Mean(Pings(ok)) else d.avgPing,
          if |ok| > 0 then Seqs.Mean(Resolves(ok)) else d.avgResolve,
          Seqs.Percent(|ok|, |es|),
          |es|,
          Seqs.Count(es, Failed))
  }

  /** Checks count the window, failures and successes add up to it, uptime is the successful
      share in [0, 100], and the uptime is 100 exactly when nothing failed. */
  lemma SummaryMeaning(d: Day, es: seq<Entry>)
    requires es != []
    ensures var r := Summarize(d, es);
      r.checks == |es| && r.failures + |Successful(es)| == r.checks
      && 0.0 <= r.uptime <= 100.0
      && (r.failures == 0 <==> r.uptime == 100.0)
  {
    Seqs.CountComplement(es, Succeeded, Failed);
  }

  /** The average ping lies within the range of the successful samples. */
  lemma SummaryAveragesInRange(d: Day, es: seq<Entry>, lo: real, hi: real)
    requires Successful(es) != []
    requires forall k :: 0 <= k < |es| ==> lo <= es[k].pingMs <= hi
    ensures lo <= Summarize(d, es).avgPing <= hi
  {
    var ok := Successful(es);
    forall k | 0 <= k < |ok| ensures lo <= Pings(ok)[k] <= hi {
      assert ok[k] in es;
    }
    Seqs.MeanBounded(Pings(ok), lo, hi);
  }

  /** Entries newer than `cutoff`. */
  function Prune(history: seq<Entry>, cutoff: int): (r: seq<Entry>)
    ensures forall k :: 0 <= k < |r| ==> r[k] in history && r[k].timestamp > cutoff
    ensures forall k :: 0 <= k < |history| && history[k].timestamp > cutoff ==> history[k] in r
  {
    Seqs.Filter(history, (e: Entry) => e.timestamp > cutoff)
  }

  /** Pruning twice with the same cutoff equals pruning once. */
  lemma PruneIdempotent(history: seq<Entry>, cutoff: int)
    ensures Prune(Prune(history, cutoff), cutoff) == Prune(history, cutoff)
  {
    Seqs.FilterIdempotent(history, (e: Entry) => e.timestamp > cutoff);
  }
}
