/** The alert store of the desktop front end: a newest-first list of alerts with a dismissed
    flag, the shortcuts that fix each type's display duration, and the derived lists of
    active and error alerts.

    An id is the clock reading and the value of a counter that only grows; the clock is a
    parameter and the id is kept as that pair rather than rendered as text. The desktop
    notification an error alert triggers is not modelled. */
module AlertStore {
  import opened Wrappers
  import Seqs

  datatype AlertType = Success | Error | Warning | Info

  /** `alert-<time>-<serial>`. */
  datatype AlertId = AlertId(time: int, serial: nat)

  datatype Alert = Alert(id: AlertId, kind: AlertType, title: string, message: string,
                         duration: Option<int>, source: Option<string>, dismissed: bool)

  /** The alerts, newest first, and the last serial handed out. */
  datatype Store = Store(alerts: seq<Alert>, counter: nat)

  /** Every id came from the counter, and no two alerts share one. */
  predicate Valid(st: Store) {
    (forall k :: 0 <= k < |st.alerts| ==> st.alerts[k].id.serial <= st.counter)
    && forall i, j :: 0 <= i < j < |st.alerts| ==> st.alerts[i].id != st.alerts[j].id
  }

  const Empty: Store := Store([], 0)

  lemma EmptyIsValid()
    ensures Valid(Empty) && Empty.alerts == []
  {
  }

  /** `add`: the alert goes first, undismissed, under the next serial. */
  function Add(st: Store, kind: AlertType, title: string, message: string,
               duration: Option<int>, source: Option<string>, now: int): (r: (Store, AlertId))
    ensures r.1 == AlertId(now, st.counter + 1) && r.0.counter == st.counter + 1
    ensures |r.0.alerts| == |st.alerts| + 1 && r.0.alerts[1..] == st.alerts
    ensures r.0.alerts[0] == Alert(r.1, kind, title, message, duration, source, false)
  {
    var id := AlertId(now, st.counter + 1);
    (Store([Alert(id, kind, title, message, duration, source, false)] + st.alerts, st.counter + 1), id)
  }

  /** The new id belongs to no alert already stored, so the store stays valid. */
  lemma AddIsFresh(st: Store, kind: AlertType, title: string, message: string,
                   duration: Option<int>, source: Option<string>, now: int)
    requires Valid(st)
    ensures forall k :: 0 <= k < |st.alerts| ==> st.alerts[k].id != Add(st, kind, title, message, duration, source, now).1
    ensures Valid(Add(st, kind, title, message, duration, source, now).0)
  {
    var r := Add(st, kind, title, message, duration, source, now).0;
    assert forall k :: 1 <= k < |r.alerts| ==> r.alerts[k] == st.alerts[k - 1];
  }

  /** How long a shortcut shows its alert: 0 keeps an error on screen until closed. */
  function Duration(kind: AlertType): (ms: int)
    ensures ms == 0 <==> kind == Error
    ensures 0 <= ms <= 6000
  {
    match kind
    case Success => 4000
    case Error => 0
    case Warning => 6000
    case Info => 5000
  }

  /** `success`, `error`, `warning` and `info`. */
  function Notify(st: Store, kind: AlertType, title: string, message: string, source: Option<string>, now: int): (r: (Store, AlertId))
    ensures |r.0.alerts| == |st.alerts| + 1
    ensures r.0.alerts[0].duration == Some(Duration(kind)) && r.0.alerts[0].kind == kind
    ensures r.0.alerts[1..] == st.alerts
  {
    Add(st, kind, title, message, Some(Duration(kind)), source, now)
  }

  /** `dismiss`: the alert with this id is marked dismissed and stays in the list. */
  function Dismiss(st: Store, id: AlertId): (r: Store)
    ensures r.counter == st.counter && |r.alerts| == |st.alerts|
    ensures forall k :: 0 <= k < |r.alerts| ==>
      r.alerts[k] == (if st.alerts[k].id == id then st.alerts[k].(dismissed := true) else st.alerts[k])
  {
    Store(seq(|st.alerts|, k requires 0 <= k < |st.alerts| =>
                var a := st.alerts[k]; if a.id == id then a.(dismissed := true) else a), st.counter)
  }

  /** `remove`: only alerts with another id remain. */
  function Remove(st: Store, id: AlertId): (r: Store)
    ensures r.counter == st.counter
    ensures forall k :: 0 <= k < |r.alerts| ==> r.alerts[k].id != id && r.alerts[k] in st.alerts
    ensures forall k :: 0 <= k < |st.alerts| && st.alerts[k].id != id ==> st.alerts[k] in r.alerts
  {
    Store(Seqs.Filter(st.alerts, (a: Alert) => a.id != id), st.counter)
  }

  function Clear(st: Store): (r: Store)
    ensures r.alerts == [] && r.counter == st.counter
  {
    st.(alerts := [])
  }

  predicate IsError(a: Alert) { a.kind == Error }
  predicate NotError(a: Alert) { a.kind != Error }
  predicate IsActive(a: Alert) { !a.dismissed }

  /** `clearErrors`: exactly the alerts of type error go. */
  function ClearErrors(st: Store): (r: Store)
    ensures r.counter == st.counter
    ensures forall k :: 0 <= k < |r.alerts| ==> r.alerts[k].kind != Error && r.alerts[k] in st.alerts
    ensures forall k :: 0 <= k < |st.alerts| && st.alerts[k].kind != Error ==> st.alerts[k] in r.alerts
  {
    Store(Seqs.Filter(st.alerts, NotError), st.counter)
  }

  /** `activeAlerts`. */
  function Active(st: Store): seq<Alert> { Seqs.Filter(st.alerts, IsActive) }

  /** `errorAlerts`. */
  function Errors(st: Store): seq<Alert> { Seqs.Filter(st.alerts, IsError) }

  /** `errorCount`. */
  function ErrorCount(st: Store): nat { |Errors(st)| }

  /** Each operation keeps the store valid. */
  lemma OperationsKeepValid(st: Store, id: AlertId)
    requires Valid(st)
    ensures Valid(Dismiss(st, id)) && Valid(Clear(st))
    ensures Valid(Remove(st, id)) && Valid(ClearErrors(st))
  {
    FilterKeepsValid(st, (a: Alert) => a.id != id);
    FilterKeepsValid(st, NotError);
  }

  lemma FilterKeepsValid(st: Store, p: Alert -> bool)
    requires Valid(st)
    ensures Valid(Store(Seqs.Filter(st.alerts, p), st.counter))
  {
    FilterDistinct(st.alerts, p);
  }

  predicate DistinctIds(s: seq<Alert>) {
    forall i, j :: 0 <= i < j < |s| ==> s[i].id != s[j].id
  }

  lemma ConsDistinct(x: Alert, rest: seq<Alert>)
    requires DistinctIds(rest)
    requires forall k :: 0 <= k < |rest| ==> rest[k].id != x.id
    ensures DistinctIds([x] + rest)
  {
    var f := [x] + rest;
    forall i, j | 0 <= i < j < |f| ensures f[i].id != f[j].id {
      assert f[j] == rest[j - 1];
      if i > 0 {
        assert f[i] == rest[i - 1];
      }
    }
  }

  /** Filtering keeps ids distinct: what survives is a selection of the alerts, in order. */
  lemma {:induction false} FilterDistinct(s: seq<Alert>, p: Alert -> bool)
    requires DistinctIds(s)
    ensures DistinctIds(Seqs.Filter(s, p))
  {
    if s != [] {
      var rest := Seqs.Filter(s[1..], p);
      FilterDistinct(s[1..], p);
      if p(s[0]) {
        forall k | 0 <= k < |rest| ensures rest[k].id != s[0].id {
          var m :| 0 <= m < |s[1..]| && s[1..][m] == rest[k];
          assert s[m + 1] == rest[k];
        }
        ConsDistinct(s[0], rest);
      } else {
        assert Seqs.Filter(s, p) == rest;
      }
    }
  }

  /** A dismissed alert leaves the active list but not the error list, so dismissing never
      changes the error count. */
  lemma DismissHidesOnly(st: Store, id: AlertId)
    ensures forall k :: 0 <= k < |Active(Dismiss(st, id))| ==> Active(Dismiss(st, id))[k].id != id
    ensures ErrorCount(Dismiss(st, id)) == ErrorCount(st)
  {
    DismissSameErrorCount(st.alerts, id);
    assert Dismiss(st, id).alerts == Dismiss(Store(st.alerts, 0), id).alerts;
  }

  lemma {:induction false} DismissSameErrorCount(s: seq<Alert>, id: AlertId)
    ensures |Seqs.Filter(Dismiss(Store(s, 0), id).alerts, IsError)| == |Seqs.Filter(s, IsError)|
  {
    if s != [] {
      var d := Dismiss(Store(s, 0), id).alerts;
      assert d[1..] == Dismiss(Store(s[1..], 0), id).alerts;
      DismissSameErrorCount(s[1..], id);
    }
  }

  /** After `clearErrors` there are no errors left to count, and the other alerts are still
      exactly as active as before. */
  lemma ClearErrorsLeavesNoError(st: Store)
    ensures ErrorCount(ClearErrors(st)) == 0
    ensures Active(ClearErrors(st)) == Seqs.Filter(Active(st), NotError)
  {
    NoErrorAfterClear(st.alerts);
    FiltersCommute(st.alerts, NotError, IsActive);
  }

  lemma {:induction false} NoErrorAfterClear(s: seq<Alert>)
    ensures Seqs.Filter(Seqs.Filter(s, NotError), IsError) == []
  {
    if s != [] {
      NoErrorAfterClear(s[1..]);
      Seqs.FilterAppend(if NotError(s[0]) then [s[0]] else [], Seqs.Filter(s[1..], NotError), IsError);
    }
  }

  lemma {:induction false} FiltersCommute<T>(s: seq<T>, p: T -> bool, q: T -> bool)
    ensures Seqs.Filter(Seqs.Filter(s, p), q) == Seqs.Filter(Seqs.Filter(s, q), p)
  {
    if s != [] {
      FiltersCommute(s[1..], p, q);
      Seqs.FilterAppend(if p(s[0]) then [s[0]] else [], Seqs.Filter(s[1..], p), q);
      Seqs.FilterAppend(if q(s[0]) then [s[0]] else [], Seqs.Filter(s[1..], q), p);
    }
  }

  /** Removing the alert just added gives back the list it was added to. */
  lemma RemoveUndoesAdd(st: Store, kind: AlertType, title: string, message: string,
                        duration: Option<int>, source: Option<string>, now: int)
    requires Valid(st)
    ensures var (added, id) := Add(st, kind, title, message, duration, source, now);
            Remove(added, id).alerts == st.alerts
  {
    var (added, id) := Add(st, kind, title, message, duration, source, now);
    AddIsFresh(st, kind, title, message, duration, source, now);
    assert added.alerts == [added.alerts[0]] + st.alerts;
    KeepsAllOthers(st.alerts, id);
  }

  lemma {:induction false} KeepsAllOthers(s: seq<Alert>, id: AlertId)
    requires forall k :: 0 <= k < |s| ==> s[k].id != id
    ensures Seqs.Filter(s, (a: Alert) => a.id != id) == s
  {
    if s != [] {
      KeepsAllOthers(s[1..], id);
    }
  }
}
