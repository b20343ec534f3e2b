/** The catalogue of netsh optimizations, each with the risk it carries, and the profiles that
    apply the ones a risk level admits.

    Running a command is the `run` parameter: whether the command exits with status 0. A
    timeout or an exception while starting it is a failure too. */
module NetworkOptimizer {
  import opened Wrappers

  /** One optimization: its catalogue id, the netsh command that applies it, and its risk
      level ("low" or "medium"). */
  datatype Entry = Entry(id: string, command: string, risk: string)

  /** `load_optimizations`, in insertion order. */
  const Catalogue: seq<Entry> := [
    Entry("tcp_congestion", "netsh int tcp set supplemental Template=Internet CongestionProvider=NewReno", "low"),
    Entry("rss", "netsh int tcp set global rss=enabled", "low"),
    Entry("autotuning", "netsh int tcp set global autotuninglevel=experimental", "low"),
    Entry("ecn", "netsh int tcp set global ecncapability=enabled", "low"),
    Entry("rsc", "netsh int tcp set global rsc=enabled", "low"),
    Entry("fastopen", "netsh int tcp set global fastopen=enabled", "low"),
    Entry("fastopenfallback", "netsh int tcp set global fastopenfallback=enabled", "low"),
    Entry("hystart", "netsh int tcp set global hystart=enabled", "low"),
    Entry("prr", "netsh int tcp set global prr=enabled", "low"),
    Entry("pacing", "netsh int tcp set global pacingprofile=always", "low"),
    Entry("initialrto", "netsh int tcp set global initialrto=1000", "low"),
    Entry("nonsackrtt", "netsh int tcp set global nonsackrttresiliency=enabled", "low"),
    Entry("maxsynretrans", "netsh int tcp set global maxsynretransmissions=1", "medium"),
    Entry("chimney", "netsh int tcp set global chimney=automatic", "medium"),
    Entry("timestamps", "netsh int tcp set global timestamps=enabled", "low")]

  /** The ids of a catalogue are the keys of a dictionary, so they are distinct. */
  predicate WellFormed(cat: seq<Entry>) {
    forall i, j :: 0 <= i < j < |cat| ==> cat[i].id != cat[j].id
  }

  /** The entry with this id. */
  function Find(cat: seq<Entry>, id: string): (r: Option<Entry>)
    ensures r.None? <==> forall k :: 0 <= k < |cat| ==> cat[k].id != id
    ensures r.Some? ==> r.value in cat && r.value.id == id
  {
    if cat == [] then None
    else if cat[0].id == id then Some(cat[0])
    else Find(cat[1..], id)
  }

  /** `apply_optimization`: an id the catalogue lacks fails without running anything;
      otherwise the entry's command runs and its exit status decides. */
  function ApplyOne(cat: seq<Entry>, id: string, run: string -> bool): (r: bool)
    ensures (forall k :: 0 <= k < |cat| ==> cat[k].id != id) ==> !r
    ensures forall k :: 0 <= k < |cat| && cat[k].id == id && WellFormed(cat) ==> (r <==> run(cat[k].command))
  {
    match Find(cat, id)
    case None => false
    case Some(e) =>
      assert WellFormed(cat) ==> forall k :: 0 <= k < |cat| && cat[k].id == id ==> cat[k] == e;
      run(e.command)
  }

  datatype Level = Conservative | Balanced | Aggressive | Custom

  /** Whether a profile level admits an entry of this risk. */
  predicate Admits(level: Level, risk: string) {
    match level
    case Conservative => risk == "low"
    case Balanced => risk in ["low", "medium"]
    case Aggressive => true
    case Custom => false
  }

  /** The ids a profile applies, in catalogue order. */
  function Selected(cat: seq<Entry>, level: Level): (r: seq<string>)
    ensures |r| <= |cat|
    ensures forall k :: 0 <= k < |r| ==> exists e :: e in cat && e.id == r[k] && Admits(level, e.risk)
    ensures forall e :: e in cat && Admits(level, e.risk) ==> e.id in r
  {
    if cat == [] then []
    else
      var rest := Selected(cat[1..], level);
      assert forall e :: e in cat ==> e == cat[0] || e in cat[1..];
      if Admits(level, cat[0].risk) then [cat[0].id] + rest else rest
  }

  /** `apply_profile`: one outcome per selected id, each from running that entry's command;
      the custom level applies nothing. */
  function ApplyProfile(cat: seq<Entry>, level: Level, run: string -> bool): (r: map<string, bool>)
    requires WellFormed(cat)
    ensures r.Keys == set id | id in Selected(cat, level)
    ensures forall k :: 0 <= k < |cat| && cat[k].id in r ==> (r[cat[k].id] <==> run(cat[k].command))
    ensures level == Custom ==> r == map[]
  {
    if level == Custom then map[]
    else
      var ids := Selected(cat, level);
      map id | id in ids :: ApplyOne(cat, id, run)
  }

  /** Each level admits what the one below it admits. */
  lemma LevelsNest(cat: seq<Entry>)
    ensures forall id :: id in Selected(cat, Conservative) ==> id in Selected(cat, Balanced)
    ensures forall id :: id in Selected(cat, Balanced) ==> id in Selected(cat, Aggressive)
  {
  }

  /** The aggressive level applies every optimization of the catalogue. */
  lemma AggressiveIsAll(cat: seq<Entry>)
    ensures forall k :: 0 <= k < |cat| ==> cat[k].id in Selected(cat, Aggressive)
  {
    forall k | 0 <= k < |cat| ensures cat[k].id in Selected(cat, Aggressive) {
      assert cat[k] in cat;
    }
  }

  /** Without a high-risk entry the balanced profile selects what the aggressive one does. */
  lemma {:induction false} BalancedIsAllWithoutHighRisk(cat: seq<Entry>)
    requires forall k :: 0 <= k < |cat| ==> cat[k].risk in ["low", "medium"]
    ensures Selected(cat, Balanced) == Selected(cat, Aggressive)
  {
    if cat != [] {
      BalancedIsAllWithoutHighRisk(cat[1..]);
    }
  }

  /** A medium-risk entry is never part of the conservative profile. */
  lemma ConservativeSkipsMedium(cat: seq<Entry>, k: nat)
    requires WellFormed(cat) && k < |cat| && cat[k].risk == "medium"
    ensures cat[k].id !in Selected(cat, Conservative)
  {
  }

  /** The shipped catalogue: distinct ids, every risk low or medium, and two medium ones. */
  lemma CatalogueRisks()
    ensures forall k :: 0 <= k < |Catalogue| ==> Catalogue[k].risk in ["low", "medium"]
    ensures Catalogue[12].id == "maxsynretrans" && Catalogue[12].risk == "medium"
    ensures Catalogue[13].id == "chimney" && Catalogue[13].risk == "medium"
  {
  }

  lemma CatalogueWellFormed()
    ensures WellFormed(Catalogue)
  {
  }
}
