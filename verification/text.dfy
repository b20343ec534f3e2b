/** Character and string primitives shared by the parsers of ping, netsh and PowerShell output.
    Only ASCII letters, digits and whitespace are distinguished; every other character is inert. */
module Text {
  import opened Wrappers

  predicate IsDigit(c: char) { '0' <= c <= '9' }

  /** The two brace characters, written by code point. */
  const OpenBrace: char := 123 as char
  const CloseBrace: char := 125 as char

  /** The characters the regular-expression class `\s` matches in ASCII text. */
  predicate IsSpace(c: char) {
    c == ' ' || c == '\t' || c == '\n' || c == '\r' || c == '\U{0B}' || c == '\U{0C}'
  }

  function Lower(c: char): char {
    if 'A' <= c <= 'Z' then (c as int + 32) as char else c
  }

  function LowerStr(s: string): (r: string)
    ensures |r| == |s|
    ensures forall k :: 0 <= k < |s| ==> r[k] == Lower(s[k])
  {
    seq(|s|, k requires 0 <= k < |s| => Lower(s[k]))
  }

  /** `w` occurs in `s` at position `i`. */
  predicate At(s: string, i: nat, w: string) {
    i + |w| <= |s| && s[i..i + |w|] == w
  }

  /** `w` (written in lower case) occurs in `s` at position `i`, ignoring letter case. */
  predicate AtNoCase(s: string, i: nat, w: string) {
    At(LowerStr(s), i, w)
  }

  /** Substring test, Python's `w in s` and Rust's `s.contains(w)`. */
  predicate Contains(s: string, w: string) {
    exists i :: 0 <= i <= |s| && At(s, i, w)
  }

  lemma ContainsWitness(s: string, w: string, i: nat)
    requires At(s, i, w)
    ensures Contains(s, w)
  {
  }

  /** Position just past the run of digits that starts at `i`. */
  function DigitEnd(s: string, i: nat): (j: nat)
    requires i <= |s|
    ensures i <= j <= |s|
    ensures forall k :: i <= k < j ==> IsDigit(s[k])
    ensures j == |s| || !IsDigit(s[j])
    decreases |s| - i
  {
    if i < |s| && IsDigit(s[i]) then DigitEnd(s, i + 1) else i
  }

  /** The digit run at `i` is exactly `ds` when a non-digit follows it. */
  lemma DigitRunOf(s: string, i: nat, ds: string)
    requires i + |ds| < |s| && s[i..i + |ds|] == ds && AllDigits(ds) && !IsDigit(s[i + |ds|])
    ensures DigitEnd(s, i) == i + |ds|
    decreases |ds|
  {
    if |ds| > 0 {
      assert s[i] == ds[0];
      assert s[i + 1..i + 1 + |ds[1..]|] == ds[1..];
      DigitRunOf(s, i + 1, ds[1..]);
    }
  }

  /** Position of the first non-whitespace character at or after `i`. */
  function SkipSpaces(s: string, i: nat): (j: nat)
    requires i <= |s|
    ensures i <= j <= |s|
    ensures forall k :: i <= k < j ==> IsSpace(s[k])
    ensures j == |s| || !IsSpace(s[j])
    decreases |s| - i
  {
    if i < |s| && IsSpace(s[i]) then SkipSpaces(s, i + 1) else i
  }

  predicate AllDigits(s: string) {
    forall k :: 0 <= k < |s| ==> IsDigit(s[k])
  }

  /** Decimal value of a digit string. */
  function NatOf(ds: string): nat
    requires AllDigits(ds)
  {
    if |ds| == 0 then 0
    else NatOf(ds[..|ds| - 1]) * 10 + (ds[|ds| - 1] as int - '0' as int)
  }

  function Pow10(n: nat): (r: nat)
    ensures r >= 1
  {
    if n == 0 then 1 else 10 * Pow10(n - 1)
  }

  /** Value of `int.frac` written in decimal. */
  function DecimalOf(intPart: string, fracPart: string): (r: real)
    requires AllDigits(intPart) && AllDigits(fracPart)
    ensures NatOf(intPart) as real <= r < NatOf(intPart) as real + 1.0
  {
    var f := NatOf(fracPart);
    var d := Pow10(|fracPart|);
    FracBelowPow10(fracPart);
    RatioBelowOne(f as real, d as real);
    NatOf(intPart) as real + f as real / d as real
  }

  lemma RatioBelowOne(a: real, b: real)
    requires 0.0 <= a < b
    ensures 0.0 <= a / b < 1.0
  {
    var q := a / b;
    assert q * b == a;
  }

  lemma DecimalOfWhole(ds: string)
    requires AllDigits(ds)
    ensures DecimalOf(ds, "") == NatOf(ds) as real
  {
    assert NatOf("") == 0 && Pow10(0) == 1;
    assert 0 as real / 1 as real == 0.0;
  }

  lemma {:induction false} FracBelowPow10(ds: string)
    requires AllDigits(ds)
    ensures NatOf(ds) < Pow10(|ds|)
  {
    if |ds| > 0 {
      FracBelowPow10(ds[..|ds| - 1]);
    }
  }

  /** Leftmost position in [i, n) at which the matcher `m` succeeds, as `re.search` scans. */
  function FirstHit<T>(n: nat, i: nat, m: nat -> Option<T>): (r: Option<nat>)
    requires i <= n
    ensures r.Some? ==> i <= r.value < n && m(r.value).Some?
    ensures r.Some? ==> forall k :: i <= k < r.value ==> m(k).None?
    ensures r.None? ==> forall k :: i <= k < n ==> m(k).None?
    decreases n - i
  {
    if i == n then None else if m(i).Some? then Some(i) else FirstHit(n, i + 1, m)
  }

  /** Value produced by the leftmost successful match of `m` over positions 0 .. n. */
  function Search<T>(n: nat, m: nat -> Option<T>): (r: Option<T>)
    ensures r.None? <==> forall k :: 0 <= k <= n ==> m(k).None?
    ensures r.Some? ==> exists k :: 0 <= k <= n && m(k) == r
  {
    match FirstHit(n + 1, 0, m)
    case Some(k) => m(k)
    case None => None
  }
  function DigitChar(d: nat): (c: char)
    requires d < 10
    ensures IsDigit(c) && c as int - '0' as int == d
  {
    ('0' as int + d) as char
  }

  /** Decimal rendering without leading zeros, as Python's `str(n)`. */
  function NatToString(n: nat): (r: string)
    ensures |r| >= 1 && AllDigits(r)
  {
    if n < 10 then [DigitChar(n)] else NatToString(n / 10) + [DigitChar(n % 10)]
  }

  lemma {:induction false} NatToStringRoundTrip(n: nat)
    ensures NatOf(NatToString(n)) == n
  {
    if n >= 10 {
      var r := NatToString(n);
      assert r[..|r| - 1] == NatToString(n / 10);
      NatToStringRoundTrip(n / 10);
    }
  }

  /** The parts separated by `sep`, as Python's `sep.join(parts)`. */
  function Join(parts: seq<string>, sep: string): (r: string)
    ensures parts == [] ==> r == ""
    ensures |parts| == 1 ==> r == parts[0]
  {
    if |parts| == 0 then ""
    else if |parts| == 1 then parts[0]
    else Join(parts[..|parts| - 1], sep) + sep + parts[|parts| - 1]
  }

  /** A joined sequence starts with its first part. */
  lemma {:induction false} JoinStartsWithFirst(parts: seq<string>, sep: string)
    requires parts != []
    ensures parts[0] <= Join(parts, sep)
  {
    if |parts| > 1 {
      JoinStartsWithFirst(parts[..|parts| - 1], sep);
    }
  }

  /** The position of the last `c` in `s`. */
  function LastIndexOf(s: string, c: char): (r: Option<nat>)
    ensures r.None? ==> forall k :: 0 <= k < |s| ==> s[k] != c
    ensures r.Some? ==> r.value < |s| && s[r.value] == c && forall k :: r.value < k < |s| ==> s[k] != c
  {
    if |s| == 0 then None
    else if s[|s| - 1] == c then Some(|s| - 1)
    else
      var r := LastIndexOf(s[..|s| - 1], c);
      assert forall k :: 0 <= k < |s| - 1 ==> s[..|s| - 1][k] == s[k];
      r
  }

  /** Rust's `s.split(c)` and Python's `s.split(c)`: the pieces between occurrences of `c`,
      including empty ones; never empty, and no piece contains `c`. */
  function Split(s: string, c: char): (r: seq<string>)
    ensures |r| >= 1
    ensures forall i, k :: 0 <= i < |r| && 0 <= k < |r[i]| ==> r[i][k] != c
    decreases |s|
  {
    match LastIndexOf(s, c)
    case None => [s]
    case Some(i) =>
      var init := Split(s[..i], c);
      init + [s[i + 1..]]
  }

  /** Joining the pieces with the separator gives back the string. */
  lemma {:induction false} SplitJoin(s: string, c: char)
    ensures Join(Split(s, c), [c]) == s
    decreases |s|
  {
    match LastIndexOf(s, c)
    case None =>
    case Some(i) =>
      SplitJoin(s[..i], c);
      var parts := Split(s, c);
      assert parts[..|parts| - 1] == Split(s[..i], c);
      assert s == s[..i] + [c] + s[i + 1..];
  }

  /** A string without the separator is one piece. */
  lemma SplitWithout(s: string, c: char)
    requires forall k :: 0 <= k < |s| ==> s[k] != c
    ensures Split(s, c) == [s]
  {
  }
  /** The last separator of `a + [c] + b` is the one after `a` when `b` has none. */
  lemma {:induction false} LastIndexOfAfter(a: string, c: char, b: string)
    requires forall k :: 0 <= k < |b| ==> b[k] != c
    ensures LastIndexOf(a + [c] + b, c) == Some(|a|)
    decreases |b|
  {
    if |b| > 0 {
      var s := a + [c] + b;
      assert s[..|s| - 1] == a + [c] + b[..|b| - 1];
      LastIndexOfAfter(a, c, b[..|b| - 1]);
    }
  }

  /** Splitting a joined list of separator-free pieces gives the pieces back. */
  lemma {:induction false} JoinSplit(parts: seq<string>, c: char)
    requires |parts| >= 1
    requires forall i, k :: 0 <= i < |parts| && 0 <= k < |parts[i]| ==> parts[i][k] != c
    ensures Split(Join(parts, [c]), c) == parts
    decreases |parts|
  {
    if |parts| == 1 {
      SplitWithout(parts[0], c);
    } else {
      var init := parts[..|parts| - 1];
      var last := parts[|parts| - 1];
      assert Join(parts, [c]) == Join(init, [c]) + [c] + last;
      SplitSnoc(Join(init, [c]), c, last);
      JoinSplit(init, c);
      assert parts == init + [last];
    }
  }

  /** Appending a separator and a separator-free piece appends one piece to the split. */
  lemma SplitSnoc(a: string, c: char, b: string)
    requires forall k :: 0 <= k < |b| ==> b[k] != c
    ensures Split(a + [c] + b, c) == Split(a, c) + [b]
  {
    var s := a + [c] + b;
    LastIndexOfAfter(a, c, b);
    assert s[..|a|] == a;
    assert s[|a| + 1..] == b;
  }
  /** The string without trailing whitespace. */
  function TrimEnd(s: string): (r: string)
    ensures r <= s
    ensures r == [] || !IsSpace(r[|r| - 1])
    ensures forall k :: |r| <= k < |s| ==> IsSpace(s[k])
  {
    if |s| > 0 && IsSpace(s[|s| - 1]) then TrimEnd(s[..|s| - 1]) else s
  }

  /** The string without leading and trailing whitespace, Rust's `trim` and Python's
      `strip()` on ASCII text. */
  function Trim(s: string): (r: string)
    ensures r == [] || (!IsSpace(r[0]) && !IsSpace(r[|r| - 1]))
    ensures exists i :: 0 <= i <= |s| && r <= s[i..] && forall k :: 0 <= k < i ==> IsSpace(s[k])
  {
    var i := SkipSpaces(s, 0);
    var r := TrimEnd(s[i..]);
    assert r <= s[i..];
    r
  }

  /** A string with no surrounding whitespace is its own trim. */
  lemma TrimNoSpaces(s: string)
    requires s == [] || (!IsSpace(s[0]) && !IsSpace(s[|s| - 1]))
    ensures Trim(s) == s
  {
  }

  /** A decimal number with an optional sign: digits, optionally a point and more digits, with
      at least one digit on one side of the point. */
  function ParseDecimal(s: string): (r: Option<real>)
    ensures s == [] ==> r.None?
  {
    var neg := |s| > 0 && s[0] == '-';
    var body := if |s| > 0 && (s[0] == '-' || s[0] == '+') then s[1..] else s;
    var parts := Split(body, '.');
    var magnitude :=
      if |parts| == 1 && parts[0] != [] && AllDigits(parts[0]) then Some(NatOf(parts[0]) as real)
      else if |parts| == 2 && AllDigits(parts[0]) && AllDigits(parts[1]) && parts[0] + parts[1] != []
      then Some(DecimalOf(parts[0], parts[1]))
      else None;
    match magnitude
    case None => None
    case Some(m) => Some(if neg then -m else m)
  }

  /** A printed whole number, with or without a minus sign, reads back as itself. */
  lemma ParseDecimalWhole(n: nat)
    ensures ParseDecimal(NatToString(n)) == Some(n as real)
    ensures ParseDecimal("-" + NatToString(n)) == Some(-(n as real))
  {
    var ds := NatToString(n);
    NatToStringRoundTrip(n);
    SplitWithout(ds, '.');
    assert ("-" + ds)[1..] == ds;
  }
  /** Every occurrence of `w`, scanning left to right without overlap, replaced by `with`:
      Python's and Rust's `replace`. */
  function Replace(s: string, w: string, with: string): (r: string)
    requires w != []
    ensures !Contains(s, w) ==> r == s
    decreases |s|
  {
    if |s| == 0 then []
    else if At(s, 0, w) then with + Replace(s[|w|..], w, with)
    else
      var rest := Replace(s[1..], w, with);
      assert !Contains(s, w) ==> !Contains(s[1..], w) by {
        if Contains(s[1..], w) {
          var i :| 0 <= i <= |s[1..]| && At(s[1..], i, w);
          assert s[i + 1..i + 1 + |w|] == s[1..][i..i + |w|];
          ContainsWitness(s, w, i + 1);
        }
      }
      [s[0]] + rest
  }

  /** `a <= b` on strings, as Python compares them: code point by code point, a proper
      prefix first. */
  predicate LexLe(a: string, b: string) {
    if a == [] then true
    else if b == [] then false
    else if a[0] != b[0] then a[0] < b[0]
    else LexLe(a[1..], b[1..])
  }

  lemma {:induction false} LexLeTotal(a: string, b: string)
    ensures LexLe(a, b) || LexLe(b, a)
  {
    if a != [] && b != [] && a[0] == b[0] {
      LexLeTotal(a[1..], b[1..]);
    }
  }

  lemma {:induction false} LexLeTransitive(a: string, b: string, c: string)
    requires LexLe(a, b) && LexLe(b, c)
    ensures LexLe(a, c)
  {
    if a != [] && b != [] && c != [] && a[0] == b[0] && b[0] == c[0] {
      LexLeTransitive(a[1..], b[1..], c[1..]);
    }
  }

  lemma {:induction false} LexLeAntisymmetric(a: string, b: string)
    requires LexLe(a, b) && LexLe(b, a)
    ensures a == b
  {
    if a != [] && b != [] {
      LexLeAntisymmetric(a[1..], b[1..]);
    }
  }

  /** The characters the regular-expression class `\w` matches in ASCII text. */
  predicate IsWordChar(c: char) {
    IsDigit(c) || 'a' <= c <= 'z' || 'A' <= c <= 'Z' || c == '_'
  }

  /** End of the run of word characters starting at `i`. */
  function WordEnd(s: string, i: nat): (j: nat)
    requires i <= |s|
    ensures i <= j <= |s|
    ensures forall k :: i <= k < j ==> IsWordChar(s[k])
    ensures j == |s| || !IsWordChar(s[j])
    decreases |s| - i
  {
    if i < |s| && IsWordChar(s[i]) then WordEnd(s, i + 1) else i
  }

  /** Group 1 of `key\s*:\s*(\w+)` matched at position `i`, ignoring letter case. */
  function FieldAt(s: string, key: string, i: nat): (r: Option<string>)
    ensures r.Some? ==> r.value != [] && forall k :: 0 <= k < |r.value| ==> IsWordChar(r.value[k])
  {
    if !AtNoCase(s, i, key) then None
    else
      var j := SkipSpaces(s, i + |key|);
      if j == |s| || s[j] != ':' then None
      else
        var k := SkipSpaces(s, j + 1);
        var e := WordEnd(s, k);
        if e == k then None else Some(s[k..e])
  }

  /** `re.search(key + r"\s*:\s*(\w+)", s, re.IGNORECASE).group(1)`, for a key written
      in lower case. */
  function Field(s: string, key: string): (r: Option<string>)
    ensures r.Some? ==> r.value != [] && forall k :: 0 <= k < |r.value| ==> IsWordChar(r.value[k])
  {
    Search(|s|, (i: nat) => FieldAt(s, key, i))
  }

  /** A line `<key> : <word>` at the start of the text yields the word. */
  lemma FieldOfLine(shown: string, key: string, w: string, rest: string)
    requires LowerStr(shown) == key
    requires w != [] && forall k :: 0 <= k < |w| ==> IsWordChar(w[k])
    requires rest == [] || !IsWordChar(rest[0])
    ensures Field(shown + " : " + w + rest, key) == Some(w)
  {
    var s := shown + " : " + w + rest;
    assert LowerStr(s)[..|key|] == key;
    assert SkipSpaces(s, |key|) == |key| + 1 by {
      assert s[|key|] == ' ' && s[|key| + 1] == ':';
    }
    assert SkipSpaces(s, |key| + 2) == |key| + 3 by {
      assert s[|key| + 2] == ' ';
      assert IsWordChar(w[0]) && s[|key| + 3] == w[0];
    }
    var e := |key| + 3 + |w|;
    assert WordEnd(s, |key| + 3) == e by {
      WordRun(s, |key| + 3, e);
    }
    assert s[|key| + 3..e] == w;
    assert FirstHit(|s| + 1, 0, (i: nat) => FieldAt(s, key, i)) == Some(0);
  }

  /** The same, for a line that ends the text right after the word. */
  lemma FieldOfLastLine(shown: string, key: string, w: string)
    requires LowerStr(shown) == key
    requires w != [] && forall k :: 0 <= k < |w| ==> IsWordChar(w[k])
    ensures Field(shown + " : " + w, key) == Some(w)
  {
    FieldOfLine(shown, key, w, "");
    assert shown + " : " + w + "" == shown + " : " + w;
  }

  lemma WordRun(s: string, i: nat, e: nat)
    requires i <= e <= |s|
    requires forall k :: i <= k < e ==> IsWordChar(s[k])
    requires e == |s| || !IsWordChar(s[e])
    ensures WordEnd(s, i) == e
    decreases e - i
  {
    if i < e {
      WordRun(s, i + 1, e);
    }
  }
}
