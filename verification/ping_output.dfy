/** Matchers for the summary lines Windows `ping` prints in Spanish and English.

    Each matcher decides whether one regular expression matches at a given position of the
    output and, when it does, returns the captured number. The expressions are unambiguous at
    a fixed start (the alternatives begin with different letters and every `\s*` or `\d+` run
    is followed by a character outside its class), so no backtracking is needed. `Search`
    then returns the leftmost match, as `re.search` does. */
module PingOutput {
  import opened Wrappers
  import opened Text

  /** `\s*=\s*(\d+)ms` starting at `i`, with the `ms` matched without regard to case. */
  function EqualsMillisAt(s: string, i: nat): Option<nat>
    requires i <= |s|
  {
    var j := SkipSpaces(s, i);
    if j < |s| && s[j] == '=' then
      var k := SkipSpaces(s, j + 1);
      var d := DigitEnd(s, k);
      if d > k && AtNoCase(s, d, "ms") then Some(NatOf(s[k..d])) else None
    else None
  }

  /** `(?:Media|Promedio|Average)\s*=\s*(\d+)ms`, case-insensitive, at position `i`. */
  function AverageAt(s: string, i: nat): Option<nat> {
    if i > |s| then None
    else if AtNoCase(s, i, "media") then EqualsMillisAt(s, i + 5)
    else if AtNoCase(s, i, "promedio") then EqualsMillisAt(s, i + 8)
    else if AtNoCase(s, i, "average") then EqualsMillisAt(s, i + 7)
    else None
  }

  /** `\((\d+)%\s*(?:perdidos|loss)\)`, case-insensitive, at position `i`. */
  function LossAt(s: string, i: nat): Option<nat> {
    if i < |s| && s[i] == '(' then
      var d := DigitEnd(s, i + 1);
      if d > i + 1 && d < |s| && s[d] == '%' then
        var j := SkipSpaces(s, d + 1);
        if AtNoCase(s, j, "perdidos)") || AtNoCase(s, j, "loss)") then Some(NatOf(s[i + 1..d]))
        else None
      else None
    else None
  }

  /** `tiempo[=<](\d+)ms|time[=<](\d+)ms`, case-insensitive, at position `i`. */
  function ReplyTimeAt(s: string, i: nat): Option<nat> {
    if i > |s| then None
    else
      var after := if AtNoCase(s, i, "tiempo") then i + 6
                   else if AtNoCase(s, i, "time") then i + 4
                   else 0;
      if after > 0 && after < |s| && (s[after] == '=' || s[after] == '<') then
        var d := DigitEnd(s, after + 1);
        if d > after + 1 && AtNoCase(s, d, "ms") then Some(NatOf(s[after + 1..d])) else None
      else None
  }

  function SearchAverage(s: string): Option<nat> {
    Search(|s|, i => AverageAt(s, i))
  }

  function SearchLoss(s: string): Option<nat> {
    Search(|s|, i => LossAt(s, i))
  }

  function SearchReplyTime(s: string): Option<nat> {
    Search(|s|, i => ReplyTimeAt(s, i))
  }

  /** The English summary line for an average of `n` milliseconds. */
  function AverageLine(n: nat): string {
    "Average = " + NatToString(n) + "ms"
  }

  /** Reading back a rendered summary line yields the average it was rendered from. */
  lemma AverageLineParses(n: nat)
    ensures SearchAverage(AverageLine(n)) == Some(n)
  {
    AverageLineMatchesAtStart(n);
    var s := AverageLine(n);
    assert FirstHit(|s| + 1, 0, i => AverageAt(s, i)) == Some(0);
  }

  lemma AverageLineMatchesAtStart(n: nat)
    ensures AverageAt(AverageLine(n), 0) == Some(n)
  {
    var s := AverageLine(n);
    assert s[..7] == "Average";
    assert LowerStr(s)[0..7] == "average";
    assert !AtNoCase(s, 0, "media") && !AtNoCase(s, 0, "promedio");
    MillisAfterAverage(n);
  }

  lemma MillisAfterAverage(n: nat)
    ensures EqualsMillisAt(AverageLine(n), 7) == Some(n)
  {
    var ds := NatToString(n);
    NatToStringRoundTrip(n);
    var a := "Average = ";
    Layout(a, ds, "ms");
    assert AverageLine(n) == a + ds + "ms";
    assert a[7] == ' ' && a[8] == '=' && a[9] == ' ';
    EqualsMillisOf(AverageLine(n), 7, ds);
  }

  /** Where the pieces of `a + ds + b` sit. */
  lemma Layout(a: string, ds: string, b: string)
    ensures var s := a + ds + b;
            |s| == |a| + |ds| + |b| && s[|a|..|a| + |ds|] == ds
            && (forall x :: 0 <= x < |a| ==> s[x] == a[x])
            && (forall x :: 0 <= x < |b| ==> s[|a| + |ds| + x] == b[x])
  {
  }

  /** ` = <digits>ms` at `i` reads as the number the digits spell. */
  lemma EqualsMillisOf(s: string, i: nat, ds: string)
    requires ds != [] && AllDigits(ds) && i + 5 + |ds| <= |s|
    requires s[i] == ' ' && s[i + 1] == '=' && s[i + 2] == ' '
    requires s[i + 3..i + 3 + |ds|] == ds
    requires s[i + 3 + |ds|] == 'm' && s[i + 4 + |ds|] == 's'
    ensures EqualsMillisAt(s, i) == Some(NatOf(ds))
  {
    var e := i + 3 + |ds|;
    assert s[i + 3] == ds[0];
    SkipOne(s, i);
    SkipOne(s, i + 2);
    DigitRunOf(s, i + 3, ds);
    TwoCharsAt(LowerStr(s), e, "ms");
    EqualsMillisAtWhen(s, i, i + 3, e);
  }

  /** `EqualsMillisAt` once each of its steps is known. */
  lemma EqualsMillisAtWhen(s: string, i: nat, k: nat, d: nat)
    requires i <= |s| && SkipSpaces(s, i) < |s| && s[SkipSpaces(s, i)] == '='
    requires SkipSpaces(s, SkipSpaces(s, i) + 1) == k && DigitEnd(s, k) == d && d > k
    requires AtNoCase(s, d, "ms")
    ensures EqualsMillisAt(s, i) == Some(NatOf(s[k..d]))
  {
  }

  /** One space and then a non-space: the skip stops right after the space. */
  lemma SkipOne(s: string, i: nat)
    requires i + 1 < |s| && s[i] == ' ' && !IsSpace(s[i + 1])
    ensures SkipSpaces(s, i) == i + 1
  {
    assert SkipSpaces(s, i + 1) == i + 1;
  }

  lemma TwoCharsAt(s: string, i: nat, w: string)
    requires |w| == 2 && i + 2 <= |s| && s[i] == w[0] && s[i + 1] == w[1]
    ensures At(s, i, w)
  {
    assert s[i..i + 2] == w;
  }

  /** A summary line carries no loss figure, so the loss pattern finds nothing in it. */
  lemma AverageLineHasNoLoss(n: nat)
    ensures SearchLoss(AverageLine(n)) == None
  {
    var ds := NatToString(n);
    var s := AverageLine(n);
    assert s == "Average = " + ds + "ms";
    forall i | 0 <= i <= |s| ensures LossAt(s, i).None? {
      if i < 10 {
        assert s[i] == "Average = "[i];
      } else if i < 10 + |ds| {
        assert s[i] == ds[i - 10];
      } else if i < |s| {
        assert s[i] == "ms"[i - 10 - |ds|];
      }
    }
  }
}
