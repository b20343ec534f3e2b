/** Naive date-times and their ISO 8601 text, as Python's `datetime.isoformat` writes it and
    `datetime.fromisoformat` reads it back. */
module IsoTime {
  import opened Wrappers
  import Text

  datatype DateTime = DateTime(year: nat, month: nat, day: nat, hour: nat, minute: nat, second: nat, micro: nat)

  predicate Leap(y: nat) { (y % 4 == 0 && y % 100 != 0) || y % 400 == 0 }

  function DaysIn(y: nat, m: nat): nat {
    if m == 2 then (if Leap(y) then 29 else 28)
    else if m == 4 || m == 6 || m == 9 || m == 11 then 30
    else 31
  }

  /** A date-time Python can represent. */
  predicate Valid(d: DateTime) {
    1 <= d.year <= 9999 && 1 <= d.month <= 12 && 1 <= d.day <= DaysIn(d.year, d.month)
    && d.hour < 24 && d.minute < 60 && d.second < 60 && d.micro < 1000000
  }

  /** `n` in exactly `w` decimal digits, with leading zeros. */
  function Pad(n: nat, w: nat): (r: string)
    ensures |r| == w && Text.AllDigits(r)
  {
    if w == 0 then [] else Pad(n / 10, w - 1) + [Text.DigitChar(n % 10)]
  }

  lemma {:induction false} PadRoundTrip(n: nat, w: nat)
    requires n < Text.Pow10(w)
    ensures Text.NatOf(Pad(n, w)) == n
  {
    if w > 0 {
      var r := Pad(n, w);
      assert r[..|r| - 1] == Pad(n / 10, w - 1);
      PadRoundTrip(n / 10, w - 1);
    }
  }

  function DatePart(d: DateTime): (r: string)
    ensures |r| == 10
  {
    Pad(d.year, 4) + "-" + Pad(d.month, 2) + "-" + Pad(d.day, 2)
  }

  function TimePart(d: DateTime): (r: string)
    ensures |r| == 8
  {
    Pad(d.hour, 2) + ":" + Pad(d.minute, 2) + ":" + Pad(d.second, 2)
  }

  function FracPart(d: DateTime): (r: string)
    ensures |r| == (if d.micro == 0 then 0 else 7)
  {
    if d.micro == 0 then "" else "." + Pad(d.micro, 6)
  }

  /** `isoformat()`: `YYYY-MM-DDTHH:MM:SS`, followed by `.ffffff` only when the microseconds
      are not zero. */
  function Iso(d: DateTime): (r: string)
    ensures |r| == (if d.micro == 0 then 19 else 26)
  {
    DatePart(d) + "T" + TimePart(d) + FracPart(d)
  }

  /** The number written with exactly the digits of `s`. */
  function Digits(s: string): (r: Option<nat>) {
    if Text.AllDigits(s) then Some(Text.NatOf(s)) else None
  }

  /** Three numbers of widths 4, 2, 2 or 2, 2, 2, separated by `sep`. */
  function Triple(s: string, w: nat, sep: char): (r: Option<(nat, nat, nat)>)
    requires |s| == w + 6
  {
    if s[w] != sep || s[w + 3] != sep then None
    else
      match (Digits(s[..w]), Digits(s[w + 1..w + 3]), Digits(s[w + 4..]))
      case (Some(a), Some(b), Some(c)) => Some((a, b, c))
      case _ => None
  }

  lemma TripleRoundTrip(a: nat, b: nat, c: nat, w: nat, sep: char)
    requires a < Text.Pow10(w) && b < 100 && c < 100 && !Text.IsDigit(sep)
    ensures Triple(Pad(a, w) + [sep] + Pad(b, 2) + [sep] + Pad(c, 2), w, sep) == Some((a, b, c))
  {
    var pa, pb, pc := Pad(a, w), Pad(b, 2), Pad(c, 2);
    var s := pa + [sep] + pb + [sep] + pc;
    assert s[w] == sep && s[w + 3] == sep;
    assert s[..w] == pa;
    assert s[w + 1..w + 3] == pb;
    assert s[w + 4..] == pc;
    assert Text.Pow10(2) == 100;
    DigitsOfPad(a, w);
    DigitsOfPad(b, 2);
    DigitsOfPad(c, 2);
  }

  lemma DigitsOfPad(n: nat, w: nat)
    requires n < Text.Pow10(w)
    ensures Digits(Pad(n, w)) == Some(n)
  {
    PadRoundTrip(n, w);
  }

  /** `fromisoformat` on the two shapes `isoformat` produces; anything else, or a date that
      does not exist, is an error. */
  function ParseIso(s: string): (r: Option<DateTime>)
    ensures r.Some? ==> Valid(r.value)
  {
    if !(|s| == 19 || (|s| == 26 && s[19] == '.')) || s[10] != 'T' then None
    else
      var date := Triple(s[..10], 4, '-');
      var time := Triple(s[11..19], 2, ':');
      var us := if |s| == 26 then Digits(s[20..]) else Some(0);
      if date.None? || time.None? || us.None? then None
      else
        var dt := DateTime(date.value.0, date.value.1, date.value.2,
                           time.value.0, time.value.1, time.value.2, us.value);
        if Valid(dt) then Some(dt) else None
  }

  /** Where the pieces of an `isoformat` text sit. */
  lemma Layout(dp: string, tp: string, fp: string)
    requires |dp| == 10 && |tp| == 8
    ensures var s := dp + "T" + tp + fp;
            |s| == 19 + |fp| && s[10] == 'T' && s[..10] == dp && s[11..19] == tp && s[19..] == fp
  {
    var s := dp + "T" + tp + fp;
    assert s[..10] == dp;
    assert s[11..19] == tp;
    assert s[19..] == fp;
  }

  /** Reading back what `isoformat` wrote gives the same date-time. */
  lemma IsoRoundTrip(d: DateTime)
    requires Valid(d)
    ensures ParseIso(Iso(d)) == Some(d)
  {
    var dp, tp, fp := DatePart(d), TimePart(d), FracPart(d);
    var s := Iso(d);
    Layout(dp, tp, fp);
    assert Text.Pow10(4) == 10000;
    TripleRoundTrip(d.year, d.month, d.day, 4, '-');
    TripleRoundTrip(d.hour, d.minute, d.second, 2, ':');
    if d.micro != 0 {
      assert s[19..] == "." + Pad(d.micro, 6);
      assert s[20..] == (s[19..])[1..];
      assert Text.Pow10(6) == 1000000;
      DigitsOfPad(d.micro, 6);
    }
  }
}
